/** Which number gets which of the device's phone slots. */
module ContactPhones {
  import opened Contacts

  /** Number `i` is of the slot's kind, or of the kind that spills into it and not the first of that kind. */
  ghost predicate Claims(phones: seq<Phone>, i: nat, slot: string)
    requires i < |phones|
  {
    || phones[i].kind == slot
    || (Overflow(phones[i].kind) == slot && exists j: nat | j < i :: phones[j].kind == phones[i].kind)
  }

  /** The slot holds the first number that claims it, or nothing when none does. */
  ghost predicate Fair(taken: map<string, string>, phones: seq<Phone>, slot: string) {
    if slot in taken then
      exists i: nat | i < |phones| ::
        && Claims(phones, i, slot)
        && taken[slot] == phones[i].number
        && forall j: nat | j < i :: !Claims(phones, j, slot)
    else forall i: nat | i < |phones| :: !Claims(phones, i, slot)
  }

  lemma {:induction false} AssignSnoc(taken: map<string, string>, phones: seq<Phone>, p: Phone)
    ensures AssignFrom(taken, phones + [p]) == AssignFrom(AssignFrom(taken, phones), [p])
    decreases |phones|
  {
    if phones == [] {
      assert [] + [p] == [p];
    } else {
      assert (phones + [p])[0] == phones[0] && (phones + [p])[1..] == phones[1..] + [p];
      var slot := SlotOf(taken, phones[0].kind);
      AssignSnoc(if slot in taken then taken else taken[slot := phones[0].number], phones[1..], p);
    }
  }

  lemma {:induction false} AssignOne(taken: map<string, string>, p: Phone)
    ensures AssignFrom(taken, [p]) ==
        var slot := SlotOf(taken, p.kind);
        if slot in taken then taken else taken[slot := p.number]
  {
    assert [p][1..] == [];
  }

  /** Nothing spills into a slot that spills itself. */
  lemma {:induction false} SpillsOnce(a: string, b: string)
    requires Overflow(b) != ""
    ensures Overflow(a) != b && Overflow(b) != b
  {
    assert "work"[0] == 'w' && |"work"| == 4 && |"home"| == 4 && |"work2"| == 5 && |"home2"| == 5;
  }

  lemma {:induction false} ClaimsStay(init: seq<Phone>, p: Phone, slot: string)
    ensures forall i: nat | i < |init| :: Claims(init + [p], i, slot) <==> Claims(init, i, slot)
  {
    forall i: nat | i < |init|
      ensures Claims(init + [p], i, slot) <==> Claims(init, i, slot)
    {
      assert forall j: nat | j <= i :: (init + [p])[j] == init[j];
    }
  }

  /** A slot nothing new claims, or whose first claim is older, stays fair. */
  lemma {:induction false} StaysFair(taken: map<string, string>, init: seq<Phone>, p: Phone, slot: string)
    requires Fair(taken, init, slot)
    requires slot in taken || !Claims(init + [p], |init|, slot)
    ensures Fair(taken, init + [p], slot)
  {
    ClaimsStay(init, p, slot);
    if slot in taken {
      var i: nat :| i < |init| && Claims(init, i, slot) && taken[slot] == init[i].number
                    && forall j: nat | j < i :: !Claims(init, j, slot);
      assert (init + [p])[i] == init[i];
    }
  }

  lemma {:induction false} BecomesFair(taken: map<string, string>, init: seq<Phone>, p: Phone, slot: string)
    requires slot !in taken && Fair(taken, init, slot) && Claims(init + [p], |init|, slot)
    ensures Fair(taken[slot := p.number], init + [p], slot)
  {
    ClaimsStay(init, p, slot);
    assert (init + [p])[|init|] == p;
  }

  /** The new number's claims, given what is taken: its own slot, and its overflow once its own is taken. */
  lemma {:induction false} NewClaims(taken: map<string, string>, init: seq<Phone>, p: Phone, slot: string)
    requires slot != "" && Fair(taken, init, p.kind)
    ensures Claims(init + [p], |init|, slot) <==> slot == p.kind || (slot == Overflow(p.kind) && p.kind in taken)
  {
    var all := init + [p];
    assert all[|init|] == p;
    ClaimsStay(init, p, p.kind);
    if slot == Overflow(p.kind) && p.kind in taken {
      var i: nat :| i < |init| && Claims(init, i, p.kind);
      SpillsOnce(init[i].kind, p.kind);
      assert all[i].kind == p.kind;
    }
    if j: nat :| j < |init| && all[j].kind == p.kind {
      assert Claims(init, j, p.kind);
    }
  }

  lemma {:induction false} OneMore(taken: map<string, string>, init: seq<Phone>, p: Phone, slot: string)
    requires p.kind in PHONE_KINDS && slot != "" && Fair(taken, init, p.kind) && Fair(taken, init, slot)
    ensures Fair(AssignFrom(taken, [p]), init + [p], slot)
  {
    var got := SlotOf(taken, p.kind);
    AssignOne(taken, p);
    NewClaims(taken, init, p, slot);
    if got !in taken && got == slot {
      BecomesFair(taken, init, p, slot);
    } else {
      StaysFair(taken, init, p, slot);
      if got !in taken {
        assert Fair(taken, init + [p], slot) ==> Fair(taken[got := p.number], init + [p], slot);
      }
    }
  }

  /**
   * Every slot ends up with the first number that claims it: of its own kind, or, for the second work and home
   * slots, a further number of the first one's kind.
   */
  lemma {:induction false} SlotsAreFair(phones: seq<Phone>, slot: string)
    requires (forall p | p in phones :: p.kind in PHONE_KINDS) && slot != ""
    ensures Fair(AssignFrom(map[], phones), phones, slot)
    decreases |phones|
  {
    if phones != [] {
      var last := |phones| - 1;
      var init, p := phones[..last], phones[last];
      assert phones == init + [p];
      assert p in phones && p.kind in PHONE_KINDS;
      KindsNamed(p.kind);
      SlotsAreFair(init, slot);
      SlotsAreFair(init, p.kind);
      AssignSnoc(map[], init, p);
      OneMore(AssignFrom(map[], init), init, p, slot);
    }
  }

  lemma {:induction false} KindsNamed(kind: string)
    requires kind in PHONE_KINDS
    ensures kind != ""
  {
  }

  lemma {:induction false} CleanKinds(phones: seq<Phone>)
    ensures forall p | p in CleanPhones(phones) :: p.kind in PHONE_KINDS && p.number != ""
  {
    if phones != [] {
      CleanKinds(phones[1..]);
      assert "work" == PHONE_KINDS[0];
    }
  }

  /** The same for any contact, whose numbers of unknown kinds count as work numbers. */
  lemma {:induction false} ContactSlotsAreFair(contact: Contact, slot: string)
    requires slot in PHONE_KINDS
    ensures var phones := Normalized(contact).phones;
      Fair(AssignFrom(map[], phones), phones, slot)
  {
    CleanKinds(contact.phones);
    KindsNamed(slot);
    SlotsAreFair(Normalized(contact).phones, slot);
  }
}
