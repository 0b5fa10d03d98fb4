/** Contacts and their device records. */
module Contacts {
  import opened Wrappers
  import opened Sequences
  import opened Cedb
  import opened Text
  import opened Structured
  import opened NotesBlob
  import opened PocketRecord
  import opened PocketFields

  /** First, last and middle name, title, suffix, company, job title, department, office, spouse, children,
      assistant, web page. */
  const TEXT_IDS := [0x3A06, 0x3A11, 0x4024, 0x4023, 0x3A05, 0x3A16, 0x3A17, 0x3A18, 0x3A19, 0x400A, 0x4006, 0x4002,
                     0x4008]
  const FIRST_NAME := 0
  const LAST_NAME := 1
  const MIDDLE_NAME := 2
  const COMPANY := 5

  const FULL_NAME := 0x4013
  const EMAIL_IDS := [0x4083, 0x4093, 0x40A3]

  const PHONE_KINDS := ["work", "work2", "home", "home2", "mobile", "work_fax", "home_fax", "pager", "car", "radio",
                        "assistant"]
  const PHONE_IDS := [0x3A08, 0x4007, 0x3A09, 0x3A2F, 0x3A1C, 0x3A24, 0x3A25, 0x4009, 0x3A1E, 0x3A1D, 0x4004]

  const ADDRESS_KINDS := ["home", "work", "other"]
  /** Five fields for each kind of address. */
  const ADDRESS_IDS := [0x4040, 0x4041, 0x4042, 0x4043, 0x4044,
                        0x4045, 0x4046, 0x4047, 0x4048, 0x4049,
                        0x404A, 0x404B, 0x404C, 0x404D, 0x404E]

  const BIRTHDAY := 0x4001
  const ANNIVERSARY := 0x4003

  const UNNAMED := "(unnamed)"

  type Texts = t: seq<string> | |t| == 13 witness seq(13, _ => "")
  type Fields = f: seq<string> | |f| == 5 witness seq(5, _ => "")

  /** Street, city, state, postal code and country. */
  datatype Address = Address(kind: string, fields: Fields)

  datatype Phone = Phone(kind: string, number: string)

  datatype Contact = Contact(
    text: Texts,
    fullName: string,
    emails: seq<string>,
    phones: seq<Phone>,
    addresses: seq<Address>,
    birthday: Option<int>,
    anniversary: Option<int>,
    notes: string,
    categories: seq<string>)

  // ----- normalising -----

  function StripAll(values: seq<string>): (r: seq<string>)
    ensures |r| == |values|
    ensures forall i :: 0 <= i < |r| ==> r[i] == Strip(values[i])
  {
    seq(|values|, i requires 0 <= i < |values| => Strip(values[i]))
  }

  predicate IsEmpty(fields: seq<string>) { forall f :: f in fields ==> f == "" }

  function CleanPhones(phones: seq<Phone>): seq<Phone> {
    if phones == [] then []
    else
      var p := phones[0];
      (if Strip(p.number) == "" then []
       else [Phone(if p.kind in PHONE_KINDS then p.kind else "work", Strip(p.number))]) + CleanPhones(phones[1..])
  }

  function CleanAddresses(addresses: seq<Address>): seq<Address> {
    if addresses == [] then []
    else (if IsEmpty(addresses[0].fields) then [] else [addresses[0]]) + CleanAddresses(addresses[1..])
  }

  function Normalized(c: Contact): Contact {
    c.(
      text := StripAll(c.text),
      fullName := Strip(c.fullName),
      emails := CleanList(c.emails, []),
      phones := CleanPhones(c.phones),
      addresses := CleanAddresses(c.addresses),
      notes := CleanNotes(c.notes),
      categories := CleanList(c.categories, []))
  }

  function DisplayName(item: Contact): string {
    if Strip(item.fullName) != "" then Strip(item.fullName)
    else
      var joined := Join(Solid([item.text[FIRST_NAME], item.text[MIDDLE_NAME], item.text[LAST_NAME]]), " ");
      if joined != "" then joined
      else if Strip(item.text[COMPANY]) != "" then Strip(item.text[COMPANY])
      else if item.emails != [] then item.emails[0]
      else ""
  }

  // ----- phone slots -----

  function Overflow(kind: string): string {
    if kind == "work" then "work2" else if kind == "home" then "home2" else ""
  }

  /** The slot a number of this kind goes to, given the slots taken so far. */
  function SlotOf(taken: map<string, string>, kind: string): string {
    var slot := if kind in PHONE_KINDS then kind else "work";
    if slot in taken && Overflow(slot) != "" && Overflow(slot) !in taken then Overflow(slot) else slot
  }

  function AssignFrom(taken: map<string, string>, phones: seq<Phone>): map<string, string>
    decreases |phones|
  {
    if phones == [] then taken
    else
      var slot := SlotOf(taken, phones[0].kind);
      AssignFrom(if slot in taken then taken else taken[slot := phones[0].number], phones[1..])
  }

  method PhoneSlots(phones: seq<Phone>) returns (taken: map<string, string>)
    ensures taken == AssignFrom(map[], phones)
  {
    taken := map[];
    for i := 0 to |phones|
      invariant AssignFrom(map[], phones) == AssignFrom(taken, phones[i..])
    {
      assert phones[i..][0] == phones[i] && phones[i..][1..] == phones[i + 1..];
      var slot := SlotOf(taken, phones[i].kind);
      if slot !in taken {
        taken := taken[slot := phones[i].number];
      }
    }
  }

  function NumberFor(taken: map<string, string>, kind: string): string {
    if kind in taken then taken[kind] else ""
  }

  function Numbers(taken: map<string, string>): (r: seq<string>)
    ensures |r| == 11
  {
    seq(11, i requires 0 <= i < 11 => NumberFor(taken, PHONE_KINDS[i]))
  }

  // ----- addresses -----

  /** `{a.kind: a}`: the last address of a kind counts. */
  function FieldsFor(addresses: seq<Address>, kind: string): Fields
    decreases |addresses|
  {
    if addresses == [] then ["", "", "", "", ""]
    else if addresses[|addresses| - 1].kind == kind then addresses[|addresses| - 1].fields
    else FieldsFor(addresses[..|addresses| - 1], kind)
  }

  function AllFields(addresses: seq<Address>): (r: seq<string>)
    ensures |r| == 15
  {
    FieldsFor(addresses, "home") + FieldsFor(addresses, "work") + FieldsFor(addresses, "other")
  }

  // ----- encode -----

  function Zip(ids: seq<int>, values: seq<string>): (r: seq<Slot>)
    requires |ids| == |values|
    ensures |r| == |ids|
    ensures forall i :: 0 <= i < |r| ==> r[i] == TextSlot(ids[i], values[i])
  {
    if ids == [] then [] else [TextSlot(ids[0], values[0])] + Zip(ids[1..], values[1..])
  }

  /** The first three e-mail addresses, padded with blanks. */
  function ThreeEmails(emails: seq<string>): (r: seq<string>)
    ensures |r| == 3
  {
    ((if |emails| > 3 then emails[..3] else emails) + ["", "", ""])[..3]
  }

  function StringSlots(item: Contact, name: string): seq<Slot> {
    Zip(TEXT_IDS, item.text) + [TextSlot(FULL_NAME, name)] + Zip(EMAIL_IDS, ThreeEmails(item.emails))
    + Zip(PHONE_IDS, Numbers(AssignFrom(map[], item.phones))) + Zip(ADDRESS_IDS, AllFields(item.addresses))
  }

  function OtherSlots(cp: Codepage, item: Contact): seq<Slot> {
    [DateSlot(BIRTHDAY, item.birthday), DateSlot(ANNIVERSARY, item.anniversary)]
    + [NotesSlot(cp, NOTES, item.notes), CategoriesSlot(item.categories)]
  }

  function Slots(cp: Codepage, item: Contact, name: string): seq<Slot> {
    StringSlots(item, name) + OtherSlots(cp, item)
  }

  lemma {:induction false} EmitPrefix(props: seq<Prop>, slots: seq<Slot>, i: nat, existing: Record)
    requires i < |slots|
    ensures props + Emit(slots[..i + 1], existing) == (props + Emit(slots[..i], existing)) + Emitted(slots[i], existing)
  {
    assert slots[..i + 1] == slots[..i] + [slots[i]];
    EmitSnoc(slots[..i], slots[i], existing);
  }

  method PutStrings(props: seq<Prop>, ids: seq<int>, values: seq<string>, existing: Record) returns (longer: seq<Prop>)
    requires |ids| == |values|
    ensures longer == props + Emit(Zip(ids, values), existing)
  {
    longer := props;
    ghost var slots := Zip(ids, values);
    assert slots[..0] == [] && props + [] == props;
    for i := 0 to |ids|
      invariant longer == props + Emit(slots[..i], existing)
    {
      EmitPrefix(props, slots, i, existing);
      longer := PutString(longer, ids[i], values[i], existing);
    }
    assert slots[..|ids|] == slots;
  }

  /** A record that would get no property at all is given a name. */
  function NameFor(cp: Codepage, item: Contact, existing: Record): string {
    if Emit(Slots(cp, item, DisplayName(item)), existing) == [] then UNNAMED else DisplayName(item)
  }

  lemma {:induction false} EmittedInOrder(cp: Codepage, item: Contact, name: string, existing: Record)
    ensures Emit(Slots(cp, item, name), existing) ==
        Emit(Zip(TEXT_IDS, item.text), existing)
        + Emitted(TextSlot(FULL_NAME, name), existing)
        + Emit(Zip(EMAIL_IDS, ThreeEmails(item.emails)), existing)
        + Emit(Zip(PHONE_IDS, Numbers(AssignFrom(map[], item.phones))), existing)
        + Emit(Zip(ADDRESS_IDS, AllFields(item.addresses)), existing)
        + Emitted(DateSlot(BIRTHDAY, item.birthday), existing)
        + Emitted(DateSlot(ANNIVERSARY, item.anniversary), existing)
        + Emitted(NotesSlot(cp, NOTES, item.notes), existing)
        + Emitted(CategoriesSlot(item.categories), existing)
  {
    var t, n := Zip(TEXT_IDS, item.text), [TextSlot(FULL_NAME, name)];
    var e, p := Zip(EMAIL_IDS, ThreeEmails(item.emails)), Zip(PHONE_IDS, Numbers(AssignFrom(map[], item.phones)));
    var a := Zip(ADDRESS_IDS, AllFields(item.addresses));
    var d := [DateSlot(BIRTHDAY, item.birthday), DateSlot(ANNIVERSARY, item.anniversary)];
    var o := [NotesSlot(cp, NOTES, item.notes), CategoriesSlot(item.categories)];
    EmitFive(t, n, e, p, a, existing);
    EmitOne(n[0], existing);
    EmitConcat(t + n + e + p + a, d + o, existing);
    EmitConcat(d, o, existing);
    EmitTwo(d[0], d[1], existing);
    EmitTwo(o[0], o[1], existing);
    Regroup(Emit(t + n + e + p + a, existing), Emitted(d[0], existing), Emitted(d[1], existing),
            Emitted(o[0], existing), Emitted(o[1], existing));
  }

  lemma {:induction false} EmitOne(slot: Slot, existing: Record)
    ensures Emit([slot], existing) == Emitted(slot, existing)
  {
    EmitSnoc([], slot, existing);
    assert [] + [slot] == [slot] && [] + Emitted(slot, existing) == Emitted(slot, existing);
  }

  lemma {:induction false} EmitFive(a: seq<Slot>, b: seq<Slot>, c: seq<Slot>, d: seq<Slot>, e: seq<Slot>,
                                    existing: Record)
    ensures Emit(a + b + c + d + e, existing) ==
        Emit(a, existing) + Emit(b, existing) + Emit(c, existing) + Emit(d, existing) + Emit(e, existing)
  {
    EmitConcat(a, b, existing);
    EmitConcat(a + b, c, existing);
    EmitConcat(a + b + c, d, existing);
    EmitConcat(a + b + c + d, e, existing);
  }

  lemma {:induction false} Regroup<T>(f: seq<T>, a: seq<T>, b: seq<T>, c: seq<T>, d: seq<T>)
    ensures f + ((a + b) + (c + d)) == f + a + b + c + d
  {
  }

  /** With no other property, the name is the whole record. */
  lemma {:induction false} NameAlone(cp: Codepage, item: Contact, existing: Record)
    requires Emit(Slots(cp, item, DisplayName(item)), existing) == []
    ensures Emit(Slots(cp, item, UNNAMED), existing) == [Prop(FULL_NAME, CEVT_LPWSTR, Words(UNNAMED), false)]
  {
    EmittedInOrder(cp, item, DisplayName(item), existing);
    EmittedInOrder(cp, item, UNNAMED, existing);
    UnnamedEmitted(existing);
    Alone(Emit(Zip(TEXT_IDS, item.text), existing),
          Emitted(TextSlot(FULL_NAME, DisplayName(item)), existing),
          Emitted(TextSlot(FULL_NAME, UNNAMED), existing),
          Emit(Zip(EMAIL_IDS, ThreeEmails(item.emails)), existing),
          Emit(Zip(PHONE_IDS, Numbers(AssignFrom(map[], item.phones))), existing),
          Emit(Zip(ADDRESS_IDS, AllFields(item.addresses)), existing),
          Emitted(DateSlot(BIRTHDAY, item.birthday), existing),
          Emitted(DateSlot(ANNIVERSARY, item.anniversary), existing),
          Emitted(NotesSlot(cp, NOTES, item.notes), existing),
          Emitted(CategoriesSlot(item.categories), existing));
  }

  lemma {:induction false} UnnamedEmitted(existing: Record)
    ensures Emitted(TextSlot(FULL_NAME, UNNAMED), existing) == [Prop(FULL_NAME, CEVT_LPWSTR, Words(UNNAMED), false)]
  {
    assert Strip(UNNAMED) == UNNAMED;
  }

  lemma {:induction false} Alone<T>(t: seq<T>, n: seq<T>, m: seq<T>, e: seq<T>, p: seq<T>, a: seq<T>, b: seq<T>,
                                    c: seq<T>, d: seq<T>, f: seq<T>)
    requires t + n + e + p + a + b + c + d + f == []
    ensures t + m + e + p + a + b + c + d + f == m
  {
    assert |t| + |n| + |e| + |p| + |a| + |b| + |c| + |d| + |f| == |t + n + e + p + a + b + c + d + f| == 0;
    assert t == [] && e == [] && p == [] && a == [] && b == [] && c == [] && d == [] && f == [];
  }

  method EncodeItem(cp: Codepage, item: Contact, existing: Record) returns (props: seq<Prop>)
    ensures props == Emit(Slots(cp, item, NameFor(cp, item, existing)), existing)
  {
    props := PutStrings([], TEXT_IDS, item.text, existing);
    props := PutString(props, FULL_NAME, DisplayName(item), existing);
    props := PutStrings(props, EMAIL_IDS, ThreeEmails(item.emails), existing);
    var taken := PhoneSlots(item.phones);
    props := PutStrings(props, PHONE_IDS, Numbers(taken), existing);
    props := PutStrings(props, ADDRESS_IDS, AllFields(item.addresses), existing);
    props := PutDate(props, BIRTHDAY, item.birthday, existing);
    props := PutDate(props, ANNIVERSARY, item.anniversary, existing);
    props := PutNotes(cp, props, NOTES, item.notes, existing);
    props := PutString(props, CATEGORIES, JoinCategories(item.categories), existing);
    assert [] + Emit(Zip(TEXT_IDS, item.text), existing) == Emit(Zip(TEXT_IDS, item.text), existing);
    EmittedInOrder(cp, item, DisplayName(item), existing);
    if props == [] {
      props := [Prop(FULL_NAME, CEVT_LPWSTR, Words(UNNAMED), false)];
      NameAlone(cp, item, existing);
    }
  }

  method Encode(cp: Codepage, contact: Contact, existing: Record) returns (props: seq<Prop>)
    ensures var item := Normalized(contact);
      props == Emit(Slots(cp, item, NameFor(cp, item, existing)), existing)
  {
    props := EncodeItem(cp, Normalized(contact), existing);
  }

  // ----- decode -----

  function Strings(record: Record, ids: seq<int>): (r: seq<string>)
    ensures |r| == |ids|
    ensures forall i :: 0 <= i < |r| ==> r[i] == StringOf(record, ids[i])
  {
    seq(|ids|, i requires 0 <= i < |ids| => StringOf(record, ids[i]))
  }

  /** The values that are not blank. */
  function Present(values: seq<string>): seq<string> {
    if values == [] then [] else (if values[0] == "" then [] else [values[0]]) + Present(values[1..])
  }

  function PhoneIn(kind: string, number: string): Option<Phone> {
    if number == "" then None else Some(Phone(kind, number))
  }

  function AddressIn(kind: string, fields: Fields): Option<Address> {
    if IsEmpty(fields) then None else Some(Address(kind, fields))
  }

  /** One phone for every kind whose property has a number. */
  function PhonesIn(numbers: seq<string>): (r: seq<Option<Phone>>)
    requires |numbers| == 11
    ensures |r| == 11
  {
    seq(11, i requires 0 <= i < 11 => PhoneIn(PHONE_KINDS[i], numbers[i]))
  }

  /** One address for every kind with a field that is not empty. */
  function AddressesIn(fields: seq<string>): (r: seq<Option<Address>>)
    requires |fields| == 15
    ensures |r| == 3
  {
    seq(3, i requires 0 <= i < 3 => AddressIn(ADDRESS_KINDS[i], fields[5 * i..5 * i + 5]))
  }

  function Decode(cp: Codepage, record: Record): Contact {
    Contact(
      text := Strings(record, TEXT_IDS),
      fullName := StringOf(record, FULL_NAME),
      emails := Present(Strings(record, EMAIL_IDS)),
      phones := Somes(PhonesIn(Strings(record, PHONE_IDS))),
      addresses := Somes(AddressesIn(Strings(record, ADDRESS_IDS))),
      birthday := DateOf(record, BIRTHDAY),
      anniversary := DateOf(record, ANNIVERSARY),
      notes := NotesOf(cp, record),
      categories := SplitCategories(StringOf(record, CATEGORIES)))
  }

  // ----- what the device keeps -----

  function FormOf(cp: Codepage, item: Contact, name: string): Contact {
    item.(
      fullName := Strip(name),
      emails := if |item.emails| > 3 then item.emails[..3] else item.emails,
      phones := Somes(PhonesIn(StripAll(Numbers(AssignFrom(map[], item.phones))))),
      addresses := Somes(AddressesIn(StripAll(AllFields(item.addresses)))),
      birthday := KeptDate(item.birthday),
      anniversary := KeptDate(item.anniversary),
      notes := Kept(cp, item.notes),
      categories := Pieces(item.categories))
  }

  // ----- reading back -----

  function Ids(slots: seq<Slot>): (r: seq<int>)
    ensures |r| == |slots|
    ensures forall i :: 0 <= i < |r| ==> r[i] == slots[i].id
  {
    seq(|slots|, i requires 0 <= i < |slots| => slots[i].id)
  }

  /** Every identifier the codec writes. */
  function AllIds(): seq<int> {
    TEXT_IDS + [FULL_NAME] + EMAIL_IDS + PHONE_IDS + ADDRESS_IDS + ([BIRTHDAY, ANNIVERSARY] + [NOTES, CATEGORIES])
  }

  /** Where a text, e-mail or phone property comes in the order of writing. */
  function PlaceOfText(id: int): int {
    if id == 0x3A06 then 0 else if id == 0x3A11 then 1 else if id == 0x4024 then 2 else if id == 0x4023 then 3
    else if id == 0x3A05 then 4 else if id == 0x3A16 then 5 else if id == 0x3A17 then 6 else if id == 0x3A18 then 7
    else if id == 0x3A19 then 8 else if id == 0x400A then 9 else if id == 0x4006 then 10 else if id == 0x4002 then 11
    else if id == 0x4008 then 12
    else -1
  }

  function PlaceOfPhone(id: int): int {
    if id == 0x3A08 then 17 else if id == 0x4007 then 18 else if id == 0x3A09 then 19 else if id == 0x3A2F then 20
    else if id == 0x3A1C then 21 else if id == 0x3A24 then 22 else if id == 0x3A25 then 23 else if id == 0x4009 then 24
    else if id == 0x3A1E then 25 else if id == 0x3A1D then 26 else if id == 0x4004 then 27
    else -1
  }

  function Place(id: int): int {
    if PlaceOfText(id) >= 0 then PlaceOfText(id)
    else if id == FULL_NAME then 13
    else if id == 0x4083 then 14 else if id == 0x4093 then 15 else if id == 0x40A3 then 16
    else if PlaceOfPhone(id) >= 0 then PlaceOfPhone(id)
    else if 0x4040 <= id <= 0x404E then 28 + (id - 0x4040)
    else if id == BIRTHDAY then 43 else if id == ANNIVERSARY then 44
    else if id == NOTES then 45 else if id == CATEGORIES then 46
    else -1
  }

  lemma {:induction false} PlacesOfTexts(i: nat)
    requires i < 13
    ensures Place(TEXT_IDS[i]) == i
  {
  }

  lemma {:induction false} PlacesOfPhones(i: nat)
    requires i < 11
    ensures Place(PHONE_IDS[i]) == 17 + i
  {
  }

  lemma {:induction false} PlacesOfAddresses(i: nat)
    requires i < 15
    ensures Place(ADDRESS_IDS[i]) == 28 + i
  {
  }

  lemma {:induction false} Places(k: nat)
    requires k < 47
    ensures Place(AllIds()[k]) == k
  {
    if k < 13 {
      PlacesOfTexts(k);
    } else if 17 <= k < 28 {
      PlacesOfPhones(k - 17);
    } else if 28 <= k < 43 {
      PlacesOfAddresses(k - 28);
    }
  }

  /** No two fields share a property. */
  lemma {:induction false} IdsDistinct()
    ensures |AllIds()| == 47
    ensures forall i, j :: 0 <= i < j < 47 ==> AllIds()[i] != AllIds()[j]
  {
    forall i, j | 0 <= i < j < 47
      ensures AllIds()[i] != AllIds()[j]
    {
      Places(i);
      Places(j);
    }
  }

  lemma {:induction false} IdsConcat(a: seq<Slot>, b: seq<Slot>)
    ensures Ids(a + b) == Ids(a) + Ids(b)
  {
  }

  lemma {:induction false} IdsZip(ids: seq<int>, values: seq<string>)
    requires |ids| == |values|
    ensures Ids(Zip(ids, values)) == ids
  {
  }

  lemma {:induction false} SlotsDistinct(cp: Codepage, item: Contact, name: string)
    ensures Distinct(Slots(cp, item, name))
  {
    var t, n := Zip(TEXT_IDS, item.text), [TextSlot(FULL_NAME, name)];
    var e, p := Zip(EMAIL_IDS, ThreeEmails(item.emails)), Zip(PHONE_IDS, Numbers(AssignFrom(map[], item.phones)));
    var a, o := Zip(ADDRESS_IDS, AllFields(item.addresses)), OtherSlots(cp, item);
    IdsZip(TEXT_IDS, item.text);
    IdsZip(EMAIL_IDS, ThreeEmails(item.emails));
    IdsZip(PHONE_IDS, Numbers(AssignFrom(map[], item.phones)));
    IdsZip(ADDRESS_IDS, AllFields(item.addresses));
    LastIds(cp, item, name);
    IdsSix(t, n, e, p, a, o);
    SameIds(t + n + e + p + a + o);
  }

  lemma {:induction false} LastIds(cp: Codepage, item: Contact, name: string)
    ensures Ids([TextSlot(FULL_NAME, name)]) == [FULL_NAME]
    ensures Ids(OtherSlots(cp, item)) == [BIRTHDAY, ANNIVERSARY] + [NOTES, CATEGORIES]
  {
  }

  lemma {:induction false} IdsSix(t: seq<Slot>, n: seq<Slot>, e: seq<Slot>, p: seq<Slot>, a: seq<Slot>, o: seq<Slot>)
    ensures Ids(t + n + e + p + a + o) == Ids(t) + Ids(n) + Ids(e) + Ids(p) + Ids(a) + Ids(o)
  {
    IdsConcat(t, n);
    IdsConcat(t + n, e);
    IdsConcat(t + n + e, p);
    IdsConcat(t + n + e + p, a);
    IdsConcat(t + n + e + p + a, o);
  }

  lemma {:induction false} SameIds(slots: seq<Slot>)
    requires Ids(slots) == AllIds()
    ensures Distinct(slots)
  {
    IdsDistinct();
    forall i, j | 0 <= i < j < |slots|
      ensures slots[i].id != slots[j].id
    {
      assert Ids(slots)[i] != Ids(slots)[j];
    }
  }

  lemma {:induction false} ZipReads(after: Record, ids: seq<int>, values: seq<string>)
    requires |ids| == |values| && Reads(after, Zip(ids, values))
    ensures Strings(after, ids) == StripAll(values)
  {
    var slots := Zip(ids, values);
    forall i: nat | i < |ids|
      ensures StringOf(after, ids[i]) == Strip(values[i])
    {
      assert Get(after, slots[i].id) == SlotProp(slots[i]);
    }
  }

  lemma {:induction false} StringsRead(item: Contact, name: string, after: Record)
    requires Reads(after, StringSlots(item, name))
    ensures Strings(after, TEXT_IDS) == StripAll(item.text)
    ensures StringOf(after, FULL_NAME) == Strip(name)
    ensures Strings(after, EMAIL_IDS) == StripAll(ThreeEmails(item.emails))
    ensures Strings(after, PHONE_IDS) == StripAll(Numbers(AssignFrom(map[], item.phones)))
    ensures Strings(after, ADDRESS_IDS) == StripAll(AllFields(item.addresses))
  {
    var t, n := Zip(TEXT_IDS, item.text), [TextSlot(FULL_NAME, name)];
    var e, p := Zip(EMAIL_IDS, ThreeEmails(item.emails)), Zip(PHONE_IDS, Numbers(AssignFrom(map[], item.phones)));
    var a := Zip(ADDRESS_IDS, AllFields(item.addresses));
    ReadsConcat(after, t + n + e + p, a);
    ReadsConcat(after, t + n + e, p);
    ReadsConcat(after, t + n, e);
    ReadsConcat(after, t, n);
    ZipReads(after, TEXT_IDS, item.text);
    ZipReads(after, EMAIL_IDS, ThreeEmails(item.emails));
    ZipReads(after, PHONE_IDS, Numbers(AssignFrom(map[], item.phones)));
    ZipReads(after, ADDRESS_IDS, AllFields(item.addresses));
    assert n[0].id == FULL_NAME;
  }

  lemma {:induction false} OthersRead(cp: Codepage, item: Contact, after: Record)
    requires Reads(after, OtherSlots(cp, item))
    ensures Get(after, BIRTHDAY) == SlotProp(DateSlot(BIRTHDAY, item.birthday))
    ensures Get(after, ANNIVERSARY) == SlotProp(DateSlot(ANNIVERSARY, item.anniversary))
    ensures Get(after, NOTES) == SlotProp(NotesSlot(cp, NOTES, item.notes))
    ensures Get(after, CATEGORIES) == SlotProp(CategoriesSlot(item.categories))
  {
    var o := OtherSlots(cp, item);
    assert o[0].id == BIRTHDAY && o[1].id == ANNIVERSARY && o[2].id == NOTES && o[3].id == CATEGORIES;
  }

  lemma {:induction false} PresentSolid(values: seq<string>, k: nat)
    requires forall v | v in values :: IsSolid(v)
    ensures Present(values + seq(k, _ => "")) == values
    decreases |values|, k
  {
    var all := values + seq(k, _ => "");
    if values != [] {
      assert all[0] == values[0] && all[1..] == values[1..] + seq(k, _ => "");
      assert IsSolid(values[0]);
      PresentSolid(values[1..], k);
    } else if k > 0 {
      assert all[0] == "" && all[1..] == values + seq(k - 1, _ => "");
      PresentSolid(values, k - 1);
    }
  }

  lemma {:induction false} EmailsRead(emails: seq<string>)
    requires forall e | e in emails :: IsSolid(e)
    ensures Present(StripAll(ThreeEmails(emails))) == if |emails| > 3 then emails[..3] else emails
  {
    var kept := if |emails| > 3 then emails[..3] else emails;
    forall i: nat | i < 3
      ensures Strip(ThreeEmails(emails)[i]) == ThreeEmails(emails)[i]
    {
      if i < |kept| {
        assert IsSolid(kept[i]);
      }
    }
    assert StripAll(ThreeEmails(emails)) == kept + seq(3 - |kept|, _ => "");
    PresentSolid(kept, 3 - |kept|);
  }

  ghost predicate Clean(item: Contact) {
    && StripAll(item.text) == item.text
    && (forall e | e in item.emails :: IsSolid(e))
    && Strip(item.notes) == item.notes
    && (forall s | s in item.categories :: IsSolid(s))
  }

  lemma {:induction false} NormalizedClean(c: Contact)
    ensures Clean(Normalized(c))
  {
    CleanListSolid(c.emails, []);
    CleanListSolid(c.categories, []);
  }

  lemma {:induction false} ItemReads(cp: Codepage, item: Contact, name: string, after: Record)
    requires Extends7Bit(cp) && Clean(item)
    requires Reads(after, StringSlots(item, name)) && Reads(after, OtherSlots(cp, item))
    ensures Decode(cp, after) == FormOf(cp, item, name)
  {
    StringsRead(item, name, after);
    EmailsRead(item.emails);
    OthersRead(cp, item, after);
    DateReads(after, BIRTHDAY, item.birthday);
    DateReads(after, ANNIVERSARY, item.anniversary);
    NotesRead(cp, after, item.notes);
    CategoriesRead(after, item.categories);
  }

  /** What was written over any record reads back as the contact's device form, under the name it was given. */
  lemma {:induction false} MergeWriteAny(cp: Codepage, contact: Contact, existing: Record, after: Record)
    requires Extends7Bit(cp)
    requires var item := Normalized(contact);
      var slots := Slots(cp, item, NameFor(cp, item, existing));
      KindsMatch(existing, slots) && Lists(after, Write(existing, Emit(slots, existing)))
    ensures Decode(cp, after)
         == FormOf(cp, Normalized(contact), NameFor(cp, Normalized(contact), existing))
  {
    var item := Normalized(contact);
    var name := NameFor(cp, item, existing);
    NormalizedClean(contact);
    SlotsDistinct(cp, item, name);
    AllRead(existing, Slots(cp, item, name), after);
    ReadsConcat(after, StringSlots(item, name), OtherSlots(cp, item));
    ItemReads(cp, item, name, after);
  }

  // ----- the one contact whose device form depends on the old record -----

  /** Nothing to write: every field is blank. */
  ghost predicate Blank(cp: Codepage, item: Contact) {
    forall s | s in Slots(cp, item, DisplayName(item)) :: s.held.None?
  }

  lemma {:induction false} EmitNothing(slots: seq<Slot>, existing: Record)
    ensures (exists s :: s in slots && s.held.Some?) ==> Emit(slots, existing) != []
    ensures existing == [] && (forall s | s in slots :: s.held.None?) ==> Emit(slots, existing) == []
  {
    if slots != [] {
      EmitNothing(slots[1..], existing);
      assert slots == [slots[0]] + slots[1..];
    }
  }

  lemma {:induction false} NameSlot(cp: Codepage, item: Contact, name: string)
    ensures TextSlot(FULL_NAME, name) in Slots(cp, item, name)
  {
    var t, n := Zip(TEXT_IDS, item.text), [TextSlot(FULL_NAME, name)];
    assert (t + n)[13] == n[0];
    assert Slots(cp, item, name)[13] == n[0];
  }

  lemma {:induction false} BlankEmits(cp: Codepage, item: Contact)
    requires Blank(cp, item)
    ensures Emit(Slots(cp, item, DisplayName(item)), []) == []
  {
    EmitNothing(Slots(cp, item, DisplayName(item)), []);
  }

  lemma {:induction false} UnnamedIsName(name: string)
    requires TextSlot(FULL_NAME, name).held.None?
    ensures name != UNNAMED
  {
    assert Strip(UNNAMED) == UNNAMED;
  }

  lemma {:induction false} BlankIsNamed(cp: Codepage, item: Contact)
    requires Blank(cp, item)
    ensures NameFor(cp, item, []) == UNNAMED
    ensures DisplayName(item) != UNNAMED
  {
    BlankEmits(cp, item);
    var name := DisplayName(item);
    NameSlot(cp, item, name);
    UnnamedIsName(name);
  }

  lemma {:induction false} OthersAreNamed(cp: Codepage, item: Contact, existing: Record)
    requires !Blank(cp, item)
    ensures NameFor(cp, item, existing) == DisplayName(item)
  {
    EmitNothing(Slots(cp, item, DisplayName(item)), existing);
  }

  /** The old record does not matter for exactly the contacts that are not blank. */
  lemma {:induction false} NameIndependent(cp: Codepage, item: Contact)
    ensures (forall existing: Record :: NameFor(cp, item, existing) == DisplayName(item)) <==> !Blank(cp, item)
  {
    if Blank(cp, item) {
      BlankIsNamed(cp, item);
    } else {
      forall existing: Record
        ensures NameFor(cp, item, existing) == DisplayName(item)
      {
        OthersAreNamed(cp, item, existing);
      }
    }
  }

  /** Over any record, a contact that is not blank reads back as its own device form: no stale field survives. */
  lemma {:induction false} MergeWrite(cp: Codepage, contact: Contact, existing: Record, after: Record)
    requires Extends7Bit(cp) && !Blank(cp, Normalized(contact))
    requires var item := Normalized(contact);
      var slots := Slots(cp, item, DisplayName(item));
      KindsMatch(existing, slots) && Lists(after, Write(existing, Emit(slots, existing)))
    ensures Decode(cp, after) == FormOf(cp, Normalized(contact), DisplayName(Normalized(contact)))
  {
    OthersAreNamed(cp, Normalized(contact), existing);
    MergeWriteAny(cp, contact, existing, after);
  }
}
