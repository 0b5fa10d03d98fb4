/** What a device keeps of a contact, in the contact's own terms. */
module ContactForms {
  import opened Wrappers
  import opened Sequences
  import opened Text
  import opened Structured
  import opened NotesBlob
  import opened PocketRecord
  import opened PocketFields
  import opened Contacts
  import opened ContactPhones

  /** The contact as a device keeps it under its own name, said without any record. */
  function DeviceForm(cp: Codepage, item: Contact): Contact { FormOf(cp, item, DisplayName(item)) }

  /** The place of a kind in a list of kinds, or its length. */
  function PlaceOf(kinds: seq<string>, kind: string): (i: nat)
    ensures i <= |kinds|
    ensures i < |kinds| <==> kind in kinds
    ensures i < |kinds| ==> kinds[i] == kind
    ensures forall j :: 0 <= j < i ==> kinds[j] != kind
  {
    if kinds == [] then 0
    else if kinds[0] == kind then 0
    else
      var rest := PlaceOf(kinds[1..], kind);
      assert forall j :: 1 <= j < |kinds| ==> kinds[1..][j - 1] == kinds[j];
      1 + rest
  }

  function PhonePlace(p: Phone): nat { PlaceOf(PHONE_KINDS, p.kind) }

  function AddressPlace(a: Address): nat { PlaceOf(ADDRESS_KINDS, a.kind) }

  /** No kind is listed twice. */
  lemma {:induction false} PhoneKindsDiffer(i: nat, j: nat)
    requires i < j < 11
    ensures PHONE_KINDS[i] != PHONE_KINDS[j]
  {
    PhoneKindCode(i);
    PhoneKindCode(j);
  }

  /** The first letter and the length of a kind tell it apart. */
  lemma {:induction false} PhoneKindCode(i: nat)
    requires i < 11
    ensures |PHONE_KINDS[i]| == [4, 5, 4, 5, 6, 8, 8, 5, 3, 5, 9][i]
    ensures PHONE_KINDS[i][0] == ['w', 'w', 'h', 'h', 'm', 'w', 'h', 'p', 'c', 'r', 'a'][i]
  {
  }

  lemma {:induction false} AddressKindsDiffer()
    ensures ADDRESS_KINDS[0] != ADDRESS_KINDS[1] && ADDRESS_KINDS[0] != ADDRESS_KINDS[2]
    ensures ADDRESS_KINDS[1] != ADDRESS_KINDS[2]
  {
    assert ADDRESS_KINDS[0][0] == 'h' && ADDRESS_KINDS[1][0] == 'w' && ADDRESS_KINDS[2][0] == 'o';
  }

  lemma {:induction false} PhonePlaces(i: nat)
    requires i < 11
    ensures PlaceOf(PHONE_KINDS, PHONE_KINDS[i]) == i
  {
    var j := PlaceOf(PHONE_KINDS, PHONE_KINDS[i]);
    if j < i {
      PhoneKindsDiffer(j, i);
    }
  }

  lemma {:induction false} AddressPlaces(i: nat)
    requires i < 3
    ensures PlaceOf(ADDRESS_KINDS, ADDRESS_KINDS[i]) == i
  {
    AddressKindsDiffer();
  }

  // ----- addresses -----

  /** `addresses[i]` is the last one of its kind. */
  predicate IsLast(addresses: seq<Address>, i: nat)
    requires i < |addresses|
  {
    forall j :: i < j < |addresses| ==> addresses[j].kind != addresses[i].kind
  }

  /** A kind's fields are those of the last address of that kind. */
  lemma {:induction false} LastCounts(addresses: seq<Address>, kind: string)
    ensures (forall a :: a in addresses ==> a.kind != kind) ==> FieldsFor(addresses, kind) == ["", "", "", "", ""]
    ensures forall i: nat :: i < |addresses| && addresses[i].kind == kind && IsLast(addresses, i) ==>
      FieldsFor(addresses, kind) == addresses[i].fields
    ensures (exists a :: a in addresses && a.kind == kind) ==>
      exists i: nat :: i < |addresses| && addresses[i].kind == kind && IsLast(addresses, i)
    decreases |addresses|
  {
    if addresses != [] {
      var (n, init) := (|addresses| - 1, addresses[..|addresses| - 1]);
      assert addresses == init + [addresses[n]];
      if addresses[n].kind == kind {
        assert IsLast(addresses, n);
      } else {
        LastCounts(init, kind);
        forall i: nat | i < n && init[i].kind == kind
          ensures IsLast(init, i) <==> IsLast(addresses, i)
        {
        }
        if exists a :: a in addresses && a.kind == kind {
          var i: nat :| i < |init| && init[i].kind == kind && IsLast(init, i);
          assert addresses[i].kind == kind && IsLast(addresses, i);
        }
      }
    }
  }

  /** The device's fields for the `i`th kind of address. */
  lemma {:induction false} FieldsAt(addresses: seq<Address>, i: nat)
    requires i < 3
    ensures StripAll(AllFields(addresses))[5 * i..5 * i + 5] == StripAll(FieldsFor(addresses, ADDRESS_KINDS[i]))
  {
    var (all, own) := (AllFields(addresses), FieldsFor(addresses, ADDRESS_KINDS[i]));
    assert all[5 * i..5 * i + 5] == own;
    forall k | 0 <= k < 5
      ensures StripAll(all)[5 * i..5 * i + 5][k] == StripAll(own)[k]
    {
      assert all[5 * i + k] == own[k];
    }
  }

  function Stripped(a: Address): Address { Address(a.kind, StripAll(a.fields)) }

  /** Of each known kind the last address is kept, stripped, unless nothing is left of it. */
  ghost predicate IsKeptAddress(addresses: seq<Address>, a: Address) {
    exists i: nat :: i < |addresses| && IsLast(addresses, i) && a == Stripped(addresses[i])
      && a.kind in ADDRESS_KINDS && !IsEmpty(a.fields)
  }

  lemma {:induction false} SlotAt(addresses: seq<Address>, k: nat)
    requires k < 3
    ensures AddressesIn(StripAll(AllFields(addresses)))[k]
         == AddressIn(ADDRESS_KINDS[k], StripAll(FieldsFor(addresses, ADDRESS_KINDS[k])))
  {
    FieldsAt(addresses, k);
  }

  lemma {:induction false} KeptIfListed(addresses: seq<Address>, a: Address)
    requires a.kind in ADDRESS_KINDS && !IsEmpty(a.fields) && a.fields == StripAll(FieldsFor(addresses, a.kind))
    ensures IsKeptAddress(addresses, a)
  {
    SomeFieldGiven(addresses, a.kind);
    LastCounts(addresses, a.kind);
    var i: nat :| i < |addresses| && addresses[i].kind == a.kind && IsLast(addresses, i);
    assert a == Stripped(addresses[i]);
  }

  lemma {:induction false} AddressesKept(addresses: seq<Address>, a: Address)
    ensures a in Somes(AddressesIn(StripAll(AllFields(addresses)))) <==> IsKeptAddress(addresses, a)
  {
    var slots := AddressesIn(StripAll(AllFields(addresses)));
    SomesMembers(slots, a);
    if Some(a) in slots {
      var k :| 0 <= k < 3 && slots[k] == Some(a);
      SlotAt(addresses, k);
      KeptIfListed(addresses, a);
    }
    if IsKeptAddress(addresses, a) {
      LastCounts(addresses, a.kind);
      var k := PlaceOf(ADDRESS_KINDS, a.kind);
      SlotAt(addresses, k);
      assert slots[k] == Some(a);
    }
  }

  lemma {:induction false} SomeFieldGiven(addresses: seq<Address>, kind: string)
    requires !IsEmpty(StripAll(FieldsFor(addresses, kind)))
    ensures exists a :: a in addresses && a.kind == kind
  {
    LastCounts(addresses, kind);
    assert IsEmpty(StripAll(["", "", "", "", ""]));
  }

  /** The addresses kept are the contact's own exactly when each is stripped, of a known kind and in slot order. */
  ghost predicate AddressesHoldable(addresses: seq<Address>) {
    InOrder(addresses, AddressPlace) && forall a :: a in addresses ==> a.kind in ADDRESS_KINDS && Stripped(a) == a
  }

  lemma {:induction false} StrippedTwice(a: Address)
    ensures Stripped(Stripped(a)) == Stripped(a)
  {
    var fields := StripAll(a.fields);
    assert forall k :: 0 <= k < 5 ==> StripAll(fields)[k] == fields[k];
  }

  lemma {:induction false} AddressSlotsPlaced(fields: seq<string>)
    requires |fields| == 15
    ensures Placed(AddressesIn(fields), AddressPlace)
  {
    AddressPlaces(0);
    AddressPlaces(1);
    AddressPlaces(2);
  }

  lemma {:induction false} AddressesExactly(addresses: seq<Address>)
    requires forall a :: a in addresses ==> !IsEmpty(a.fields)
    ensures Somes(AddressesIn(StripAll(AllFields(addresses)))) == addresses <==> AddressesHoldable(addresses)
  {
    var slots := AddressesIn(StripAll(AllFields(addresses)));
    AddressSlotsPlaced(StripAll(AllFields(addresses)));
    SomesInOrder(slots, AddressPlace);
    forall a
      ensures a in Somes(slots) <==> IsKeptAddress(addresses, a)
      ensures a in Somes(slots) ==> Stripped(a) == a
    {
      AddressesKept(addresses, a);
      if a in Somes(slots) {
        var i: nat :| i < |addresses| && IsLast(addresses, i) && a == Stripped(addresses[i])
                      && a.kind in ADDRESS_KINDS && !IsEmpty(a.fields);
        StrippedTwice(addresses[i]);
      }
    }
    if AddressesHoldable(addresses) {
      forall a
        ensures a in addresses <==> Some(a) in slots
      {
        SomesMembers(slots, a);
        OrderedAreLast(addresses, a);
      }
      SomesAre(slots, addresses, AddressPlace);
    }
  }

  lemma {:induction false} OrderedAreLast(addresses: seq<Address>, a: Address)
    requires AddressesHoldable(addresses) && forall b :: b in addresses ==> !IsEmpty(b.fields)
    ensures IsKeptAddress(addresses, a) <==> a in addresses
  {
    if a in addresses {
      var i :| 0 <= i < |addresses| && addresses[i] == a;
      assert IsLast(addresses, i) && a == Stripped(addresses[i]);
    }
    if IsKeptAddress(addresses, a) {
      var i: nat :| i < |addresses| && IsLast(addresses, i) && a == Stripped(addresses[i])
                    && a.kind in ADDRESS_KINDS && !IsEmpty(a.fields);
      assert addresses[i] in addresses;
    }
  }

  // ----- phones -----

  ghost predicate Numbered(phones: seq<Phone>) {
    forall p :: p in phones ==> p.kind in PHONE_KINDS && IsSolid(p.number)
  }

  /** Each slot keeps the first number that claims it. */
  ghost predicate IsKeptPhone(phones: seq<Phone>, p: Phone) {
    && p.kind in PHONE_KINDS
    && exists i: nat :: i < |phones| && Claims(phones, i, p.kind) && p.number == phones[i].number
         && forall j: nat :: j < i ==> !Claims(phones, j, p.kind)
  }

  lemma {:induction false} PhoneSlotAt(phones: seq<Phone>, k: nat)
    requires k < 11 && Numbered(phones)
    ensures var taken := AssignFrom(map[], phones);
      && (PHONE_KINDS[k] in taken ==> IsSolid(taken[PHONE_KINDS[k]]))
      && PhonesIn(StripAll(Numbers(taken)))[k]
         == if PHONE_KINDS[k] in taken then Some(Phone(PHONE_KINDS[k], taken[PHONE_KINDS[k]])) else None
  {
    var (taken, kind) := (AssignFrom(map[], phones), PHONE_KINDS[k]);
    KindsNamed(kind);
    SlotsAreFair(phones, kind);
    if kind in taken {
      var i: nat :| i < |phones| && Claims(phones, i, kind) && taken[kind] == phones[i].number;
      assert phones[i] in phones;
    }
    assert StripAll(Numbers(taken))[k] == Strip(NumberFor(taken, kind));
    assert Strip("") == "";
  }

  lemma {:induction false} PhonesKept(phones: seq<Phone>, p: Phone)
    requires Numbered(phones)
    ensures p in Somes(PhonesIn(StripAll(Numbers(AssignFrom(map[], phones))))) <==> IsKeptPhone(phones, p)
  {
    var taken := AssignFrom(map[], phones);
    var slots := PhonesIn(StripAll(Numbers(taken)));
    SomesMembers(slots, p);
    if Some(p) in slots {
      var k :| 0 <= k < 11 && slots[k] == Some(p);
      PhoneSlotAt(phones, k);
      KindsNamed(p.kind);
      SlotsAreFair(phones, p.kind);
    }
    if IsKeptPhone(phones, p) {
      var k := PlaceOf(PHONE_KINDS, p.kind);
      PhoneSlotAt(phones, k);
      KindsNamed(p.kind);
      SlotsAreFair(phones, p.kind);
      FirstClaims(phones, p, taken);
      assert slots[k] == Some(p);
    }
  }

  lemma {:induction false} FirstClaims(phones: seq<Phone>, p: Phone, taken: map<string, string>)
    requires IsKeptPhone(phones, p) && Fair(taken, phones, p.kind)
    ensures p.kind in taken && taken[p.kind] == p.number
  {
    var i: nat :| i < |phones| && Claims(phones, i, p.kind) && p.number == phones[i].number
                  && forall j: nat :: j < i ==> !Claims(phones, j, p.kind);
    if p.kind in taken {
      var k: nat :| k < |phones| && Claims(phones, k, p.kind) && taken[p.kind] == phones[k].number
                    && forall j: nat :: j < k ==> !Claims(phones, j, p.kind);
      assert i == k;
    }
  }

  lemma {:induction false} PhoneSlotsPlaced(numbers: seq<string>)
    requires |numbers| == 11
    ensures Placed(PhonesIn(numbers), PhonePlace)
  {
    forall i | 0 <= i < 11 && PhonesIn(numbers)[i].Some?
      ensures PhonePlace(PhonesIn(numbers)[i].value) == i
    {
      PhonePlaces(i);
    }
  }

  /** In slot order no number spills. */
  lemma {:induction false} OrderedClaims(phones: seq<Phone>, p: Phone)
    requires Numbered(phones) && InOrder(phones, PhonePlace)
    ensures IsKeptPhone(phones, p) <==> p in phones
  {
    forall i: nat, kind: string | i < |phones|
      ensures Claims(phones, i, kind) <==> phones[i].kind == kind
    {
      assert forall j: nat :: j < i ==> PhonePlace(phones[j]) < PhonePlace(phones[i]);
    }
    if p in phones {
      var i :| 0 <= i < |phones| && phones[i] == p;
      assert forall j: nat :: j < i ==> PhonePlace(phones[j]) < PhonePlace(phones[i]);
    }
  }

  /** The numbers kept are the contact's own exactly when they are in slot order, one of a kind. */
  lemma {:induction false} PhonesExactly(phones: seq<Phone>)
    requires Numbered(phones)
    ensures Somes(PhonesIn(StripAll(Numbers(AssignFrom(map[], phones))))) == phones <==> InOrder(phones, PhonePlace)
  {
    var slots := PhonesIn(StripAll(Numbers(AssignFrom(map[], phones))));
    PhoneSlotsPlaced(StripAll(Numbers(AssignFrom(map[], phones))));
    SomesInOrder(slots, PhonePlace);
    if InOrder(phones, PhonePlace) {
      forall p
        ensures p in phones <==> Some(p) in slots
      {
        SomesMembers(slots, p);
        PhonesKept(phones, p);
        OrderedClaims(phones, p);
      }
      SomesAre(slots, phones, PhonePlace);
    }
  }

  // ----- the name -----

  /** A contact with a full name, or with nothing a name could be made of. */
  predicate NamesItself(item: Contact) {
    || item.fullName != ""
    || (item.text[FIRST_NAME] == "" && item.text[MIDDLE_NAME] == "" && item.text[LAST_NAME] == ""
        && item.text[COMPANY] == "" && item.emails == [])
  }

  lemma {:induction false} SolidGiven(items: seq<string>)
    requires forall s :: s in items ==> Strip(s) == s
    ensures forall s :: s in Solid(items) ==> IsSolid(s)
    ensures Solid(items) == [] <==> forall s :: s in items ==> s == ""
  {
    if items != [] {
      SolidGiven(items[1..]);
      assert forall s :: s in items <==> s == items[0] || s in items[1..];
      assert items[0] in items;
      assert Solid(items) == if items[0] == "" then Solid(items[1..]) else [items[0]] + Solid(items[1..]);
    }
  }

  lemma {:induction false} JoinedName(a: string, b: string, c: string)
    requires Strip(a) == a && Strip(b) == b && Strip(c) == c
    ensures var joined := Join(Solid([a, b, c]), " ");
      Strip(joined) == joined && (joined == "" <==> a == "" && b == "" && c == "")
  {
    SolidGiven([a, b, c]);
    var parts := Solid([a, b, c]);
    assert a in [a, b, c] && b in [a, b, c] && c in [a, b, c];
    if parts != [] {
      JoinSolid(parts, " ");
    } else {
      assert Join(parts, " ") == "" && Strip("") == "";
    }
  }

  lemma {:induction false} NameExactly(item: Contact)
    requires Clean(item) && Strip(item.fullName) == item.fullName
    ensures Strip(DisplayName(item)) == item.fullName <==> NamesItself(item)
    ensures item.fullName != "" ==> DisplayName(item) == item.fullName
  {
    var (f, m, l, c) := (item.text[FIRST_NAME], item.text[MIDDLE_NAME], item.text[LAST_NAME], item.text[COMPANY]);
    assert forall k :: 0 <= k < 13 ==> StripAll(item.text)[k] == item.text[k];
    JoinedName(f, m, l);
    if item.emails != [] {
      assert IsSolid(item.emails[0]);
    }
    assert Strip("") == "";
  }

  // ----- the whole contact -----

  /** What a device can hold of a contact as it is. */
  ghost predicate Holdable(cp: Codepage, item: Contact) {
    && NamesItself(item)
    && |item.emails| <= 3
    && InOrder(item.phones, PhonePlace)
    && AddressesHoldable(item.addresses)
    && (item.birthday.Some? ==> item.birthday.value > 0)
    && (item.anniversary.Some? ==> item.anniversary.value > 0)
    && Keepable(cp, item.notes)
    && forall s :: s in item.categories ==> ',' !in s
  }

  lemma {:induction false} NormalizedPhones(phones: seq<Phone>)
    ensures Numbered(CleanPhones(phones))
  {
    if phones != [] {
      NormalizedPhones(phones[1..]);
      assert "work" == PHONE_KINDS[0];
    }
  }

  lemma {:induction false} NormalizedAddresses(addresses: seq<Address>)
    ensures forall a :: a in CleanAddresses(addresses) ==> !IsEmpty(a.fields)
  {
    if addresses != [] {
      NormalizedAddresses(addresses[1..]);
    }
  }

  lemma {:induction false} ItemExactly(cp: Codepage, item: Contact)
    requires Extends7Bit(cp) && Clean(item) && Strip(item.fullName) == item.fullName
    requires Numbered(item.phones) && forall a :: a in item.addresses ==> !IsEmpty(a.fields)
    ensures DeviceForm(cp, item) == item <==> Holdable(cp, item)
  {
    NameExactly(item);
    PhonesExactly(item.phones);
    AddressesExactly(item.addresses);
    NotesBlob.KeptExactly(cp, item.notes);
    CategoriesExactly(item.categories);
  }

  /** The device form is the contact itself, normalised, for exactly the contacts a device can hold. */
  lemma {:induction false} KeptExactly(cp: Codepage, contact: Contact)
    requires Extends7Bit(cp)
    ensures DeviceForm(cp, Normalized(contact)) == Normalized(contact) <==> Holdable(cp, Normalized(contact))
  {
    NormalizedClean(contact);
    NormalizedPhones(contact.phones);
    NormalizedAddresses(contact.addresses);
    ItemExactly(cp, Normalized(contact));
  }

  lemma {:induction false} UnnamedIsStripped()
    ensures Strip(UNNAMED) == UNNAMED && UNNAMED != ""
  {
  }

  /** Only a record that would stay without any property is given a name of its own. */
  lemma {:induction false} UnnamedDiffers(cp: Codepage, item: Contact, existing: Record)
    requires Clean(item) && Strip(item.fullName) == item.fullName
    requires Emit(Slots(cp, item, DisplayName(item)), existing) == []
    ensures Strip(UNNAMED) == UNNAMED && item.fullName != UNNAMED
  {
    UnnamedIsStripped();
    NameExactly(item);
    EmitNothing(Slots(cp, item, DisplayName(item)), existing);
    NameSlot(cp, item, DisplayName(item));
    UnnamedIsName(DisplayName(item));
  }

  /**
   * Written over any matching record and read back, a contact is as it was exactly when a device can hold it and
   * there is something to write.
   */
  lemma {:induction false} ReadsBackExactly(cp: Codepage, contact: Contact, existing: Record, after: Record)
    requires Extends7Bit(cp)
    requires var item := Normalized(contact);
      var slots := Slots(cp, item, NameFor(cp, item, existing));
      KindsMatch(existing, slots) && Lists(after, Write(existing, Emit(slots, existing)))
    ensures Decode(cp, after) == Normalized(contact) <==>
      && Holdable(cp, Normalized(contact))
      && Emit(Slots(cp, Normalized(contact), DisplayName(Normalized(contact))), existing) != []
  {
    var item := Normalized(contact);
    MergeWriteAny(cp, contact, existing, after);
    if Emit(Slots(cp, item, DisplayName(item)), existing) == [] {
      NormalizedClean(contact);
      UnnamedDiffers(cp, item, existing);
    } else {
      KeptExactly(cp, contact);
    }
  }
}
