/** Facts about sequences that the verifier needs to be told. */
module Sequences {
  import opened Wrappers

  lemma {:induction false} Assoc<T>(a: seq<T>, b: seq<T>, c: seq<T>)
    ensures a + (b + c) == (a + b) + c
  {
  }

  lemma {:induction false} SliceOfSlice<T>(data: seq<T>, start: nat, size: nat, lo: nat, hi: nat)
    requires start + size <= |data| && lo <= hi <= size
    ensures data[start..start + size][lo..hi] == data[start + lo..start + hi]
  {
    var inner, outer := data[start..start + size][lo..hi], data[start + lo..start + hi];
    assert forall k | 0 <= k < hi - lo :: inner[k] == data[start + lo + k] == outer[k];
  }

  /** The values that are there, in order. */
  function Somes<T>(slots: seq<Option<T>>): seq<T> {
    if slots == [] then []
    else Somes(slots[..|slots| - 1]) + match slots[|slots| - 1] case None => [] case Some(x) => [x]
  }

  lemma {:induction false} SomesMembers<T>(slots: seq<Option<T>>, x: T)
    ensures x in Somes(slots) <==> Some(x) in slots
  {
    if slots != [] {
      var n := |slots| - 1;
      SomesMembers(slots[..n], x);
      assert slots == slots[..n] + [slots[n]];
    }
  }

  /** In the order of their places. */
  ghost predicate InOrder<T>(items: seq<T>, place: T -> nat) {
    forall i, j :: 0 <= i < j < |items| ==> place(items[i]) < place(items[j])
  }

  /** Slots that hold each value at its own place. */
  ghost predicate Placed<T>(slots: seq<Option<T>>, place: T -> nat) {
    forall i :: 0 <= i < |slots| && slots[i].Some? ==> place(slots[i].value) == i
  }

  lemma {:induction false} SomesInOrder<T>(slots: seq<Option<T>>, place: T -> nat)
    requires Placed(slots, place)
    ensures InOrder(Somes(slots), place)
  {
    if slots != [] {
      var n := |slots| - 1;
      SomesInOrder(slots[..n], place);
      forall x | x in Somes(slots[..n])
        ensures place(x) < n
      {
        SomesMembers(slots[..n], x);
      }
    }
  }

  /** Items in the order of their places, and the same as in the slots, are what the slots hold. */
  lemma {:induction false} SomesAre<T>(slots: seq<Option<T>>, items: seq<T>, place: T -> nat)
    requires Placed(slots, place) && InOrder(items, place)
    requires forall x :: x in items <==> Some(x) in slots
    ensures Somes(slots) == items
  {
    SomesInOrder(slots, place);
    forall x
      ensures x in Somes(slots) <==> x in items
    {
      SomesMembers(slots, x);
    }
    SameOrder(Somes(slots), items, place);
  }

  lemma {:induction false} SameOrder<T>(a: seq<T>, b: seq<T>, place: T -> nat)
    requires InOrder(a, place) && InOrder(b, place)
    requires forall x :: x in a <==> x in b
    ensures a == b
    decreases |a|
  {
    assert a != [] ==> a[0] in a;
    assert b != [] ==> b[0] in b;
    if a != [] {
      var (m, n) := (|a| - 1, |b| - 1);
      assert a[m] in a && b[n] in b;
      var i :| 0 <= i < |b| && b[i] == a[m];
      var j :| 0 <= j < |a| && a[j] == b[n];
      assert i == n && j == m;
      forall x
        ensures x in a[..m] <==> x in b[..n]
      {
        WithoutLast(a, x, place);
        WithoutLast(b, x, place);
      }
      SameOrder(a[..m], b[..n], place);
    }
  }

  lemma {:induction false} WithoutLast<T>(a: seq<T>, x: T, place: T -> nat)
    requires a != [] && InOrder(a, place)
    ensures x in a[..|a| - 1] <==> x in a && x != a[|a| - 1]
  {
    assert a == a[..|a| - 1] + [a[|a| - 1]];
  }
}
