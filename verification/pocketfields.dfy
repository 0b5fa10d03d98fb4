/** The fields the Pocket Outlook codecs share: notes, categories, dates. */
module PocketFields {
  import opened Wrappers
  import opened Sequences
  import opened Cedb
  import opened Text
  import opened Structured
  import opened NotesBlob
  import opened PocketRecord

  const NOTES := 0x0017
  const SUBJECT := 0x0037
  const SENSITIVITY := 0x0004
  const IMPORTANCE := 0x0026
  const CATEGORIES := 0x4005

  const SENSITIVITY_PUBLIC := 0
  const SENSITIVITY_PRIVATE := 1

  const NO_SUBJECT := "(no subject)"

  // ----- notes -----

  function NotesSlot(cp: Codepage, id: int, text: string): Slot {
    Slot(id, CEVT_BLOB, if Strip(text) == "" then None else Some(Raw(EncodeNotes(cp, text))))
  }

  method PutNotes(cp: Codepage, props: seq<Prop>, id: int, text: string, existing: Record) returns (longer: seq<Prop>)
    ensures longer == props + Emitted(NotesSlot(cp, id, text), existing)
  {
    longer := props;
    if Strip(text) != "" {
      longer := longer + [Prop(id, CEVT_BLOB, Raw(EncodeNotes(cp, text)), false)];
    } else if HasProp(existing, id) {
      longer := longer + [Deleted(id, CEVT_BLOB)];
    }
  }

  function NotesOf(cp: Codepage, record: Record): string {
    match Get(record, NOTES)
    case Some(Prop(_, _, Words(text), _)) => Replace(text, CRLF, [LF])
    case Some(Prop(_, _, Raw(octets), _)) => DecodeNotes(cp, octets)
    case _ => ""
  }

  /** `text.replace("\r\n", "\n").strip()` */
  function CleanNotes(text: string): string { Strip(Replace(text, CRLF, [LF])) }

  lemma {:induction false} NotesRead(cp: Codepage, after: Record, text: string)
    requires Extends7Bit(cp) && text == Strip(text)
    requires Get(after, NOTES) == SlotProp(NotesSlot(cp, NOTES, text))
    ensures NotesOf(cp, after) == Kept(cp, text)
  {
    NotesReadBack(cp, text);
  }

  // ----- categories -----

  function JoinCategories(categories: seq<string>): string { Join(Solid(categories), ",") }

  function SplitCategories(text: string): seq<string> { Solid(Split(text, ',')) }

  function CategoriesSlot(categories: seq<string>): Slot { TextSlot(CATEGORIES, JoinCategories(categories)) }

  /** `_clean_list`: stripped, without blanks and repeats; `seen` is what was kept already. */
  function CleanList(values: seq<string>, seen: seq<string>): seq<string>
    decreases |values|
  {
    if values == [] then seen
    else
      var cleaned := Strip(values[0]);
      CleanList(values[1..], if cleaned != "" && cleaned !in seen then seen + [cleaned] else seen)
  }

  /** A category is read back in the pieces between its commas. */
  function Pieces(categories: seq<string>): seq<string> {
    if categories == [] then [] else SplitCategories(categories[0]) + Pieces(categories[1..])
  }

  /** Stripped and not blank. */
  predicate IsSolid(s: string) { s != "" && Strip(s) == s }

  lemma {:induction false} CleanListSolid(values: seq<string>, seen: seq<string>)
    requires forall s | s in seen :: IsSolid(s)
    ensures forall s | s in CleanList(values, seen) :: IsSolid(s)
    decreases |values|
  {
    if values != [] {
      var cleaned := Strip(values[0]);
      CleanListSolid(values[1..], if cleaned != "" && cleaned !in seen then seen + [cleaned] else seen);
    }
  }

  lemma {:induction false} SolidOfSolid(items: seq<string>)
    requires forall s | s in items :: IsSolid(s)
    ensures Solid(items) == items
  {
    if items != [] {
      assert IsSolid(items[0]);
      SolidOfSolid(items[1..]);
      assert items == [items[0]] + items[1..];
    }
  }

  lemma {:induction false} SolidConcat(a: seq<string>, b: seq<string>)
    ensures Solid(a + b) == Solid(a) + Solid(b)
  {
    if a == [] {
      assert a + b == b;
    } else {
      SolidConcat(a[1..], b);
      assert (a + b)[0] == a[0] && (a + b)[1..] == a[1..] + b;
      Assoc(SolidFirst(a), Solid(a[1..]), Solid(b));
      SolidStep(a);
      SolidStep(a + b);
    }
  }

  /** What the first item gives. */
  function SolidFirst(items: seq<string>): seq<string>
    requires items != []
  {
    if Strip(items[0]) == "" then [] else [Strip(items[0])]
  }

  lemma {:induction false} SolidStep(items: seq<string>)
    requires items != []
    ensures Solid(items) == SolidFirst(items) + Solid(items[1..])
  {
  }

  lemma {:induction false} SplitCons(c: char, s: string, sep: char)
    ensures Split([c] + s, sep) ==
            if c == sep then [""] + Split(s, sep) else [[c] + Split(s, sep)[0]] + Split(s, sep)[1..]
  {
    assert ([c] + s)[1..] == s;
  }

  lemma {:induction false} SplitAcross(a: string, sep: char, b: string)
    ensures Split(a + ([sep] + b), sep) == Split(a, sep) + Split(b, sep)
  {
    if a == "" {
      assert a + ([sep] + b) == [sep] + b;
      SplitCons(sep, b, sep);
    } else {
      var rest := a[1..];
      SplitAcross(rest, sep, b);
      assert a + ([sep] + b) == [a[0]] + (rest + ([sep] + b));
      SplitCons(a[0], rest + ([sep] + b), sep);
      SplitCons(a[0], rest, sep);
      assert a == [a[0]] + rest;
      HeadOf(a[0], sep, Split(rest, sep), Split(b, sep));
    }
  }

  lemma {:induction false} HeadOf(c: char, sep: char, first: seq<string>, last: seq<string>)
    requires first != []
    ensures (if c == sep then [""] + (first + last) else [[c] + (first + last)[0]] + (first + last)[1..])
         == (if c == sep then [""] + first else [[c] + first[0]] + first[1..]) + last
  {
    assert (first + last)[1..] == first[1..] + last;
  }

  lemma {:induction false} SplitJoined(categories: seq<string>)
    ensures SplitCategories(Join(categories, ",")) == Pieces(categories)
  {
    if categories == [] {
      assert Split("", ',') == [""] && [""][1..] == [] && Strip("") == "";
      assert Solid([""]) == [];
    } else if |categories| == 1 {
      assert Pieces(categories[1..]) == [];
      assert SplitCategories(categories[0]) + [] == SplitCategories(categories[0]);
    } else {
      var rest := Join(categories[1..], ",");
      SplitJoined(categories[1..]);
      SplitAcross(categories[0], ',', rest);
      assert categories[0] + "," + rest == categories[0] + ([','] + rest);
      SolidConcat(Split(categories[0], ','), Split(rest, ','));
    }
  }

  lemma {:induction false} JoinSolid(items: seq<string>, sep: string)
    requires items != [] && forall s | s in items :: IsSolid(s)
    ensures IsSolid(Join(items, sep)) && items[0] != "" && Join(items, sep)[0] == items[0][0]
  {
    assert IsSolid(items[0]);
    if |items| > 1 {
      JoinSolid(items[1..], sep);
      assert Join(items, sep) == items[0] + sep + Join(items[1..], sep);
    }
  }

  lemma {:induction false} CategoriesRead(after: Record, categories: seq<string>)
    requires forall s | s in categories :: IsSolid(s)
    requires Get(after, CATEGORIES) == SlotProp(CategoriesSlot(categories))
    ensures SplitCategories(StringOf(after, CATEGORIES)) == Pieces(categories)
  {
    SolidOfSolid(categories);
    SplitJoined(categories);
    if categories != [] {
      JoinSolid(categories, ",");
    }
  }

  lemma {:induction false} SolidWithoutComma(s: string)
    requires IsSolid(s)
    ensures SplitCategories(s) == [s] <==> ',' !in s
    ensures |SplitCategories(s)| >= 0
  {
    if ',' !in s {
      SplitNone(s, ',');
      SolidOfSolid([s]);
    } else {
      assert forall p | p in SplitCategories(s) :: ',' !in p by {
        SolidMembers(Split(s, ','), ',');
      }
      assert s in [s];
    }
  }

  lemma {:induction false} SolidMembers(items: seq<string>, c: char)
    requires forall p | p in items :: c !in p
    ensures forall p | p in Solid(items) :: c !in p
  {
    if items != [] {
      SolidMembers(items[1..], c);
      assert c !in Strip(items[0]);
    }
  }

  /** Categories come back as they were exactly when none has a comma. */
  lemma {:induction false} CategoriesExactly(categories: seq<string>)
    requires forall s | s in categories :: IsSolid(s)
    ensures Pieces(categories) == categories <==> forall s | s in categories :: ',' !in s
  {
    PiecesHaveNoComma(categories);
    if forall s | s in categories :: ',' !in s {
      WholePieces(categories);
    }
  }

  lemma {:induction false} PiecesHaveNoComma(categories: seq<string>)
    ensures forall p | p in Pieces(categories) :: ',' !in p
  {
    if categories != [] {
      PiecesHaveNoComma(categories[1..]);
      SolidMembers(Split(categories[0], ','), ',');
    }
  }

  lemma {:induction false} WholePieces(categories: seq<string>)
    requires forall s | s in categories :: IsSolid(s) && ',' !in s
    ensures Pieces(categories) == categories
  {
    if categories != [] {
      WholePieces(categories[1..]);
      SolidWithoutComma(categories[0]);
      assert categories == [categories[0]] + categories[1..];
    }
  }

  // ----- dates -----

  /** A date is its number of days since 1 January 1601. */
  const TICKS_PER_DAY := 864_000_000_000

  const UNKNOWN_DATE := 134_774  // 1 January 1970

  function DateToFiletime(day: int): int { day * TICKS_PER_DAY }

  function FiletimeToDate(ticks: int): Option<int> {
    if ticks <= 0 then None else Some(ticks / 10 / (TICKS_PER_DAY / 10))
  }

  function DateSlot(id: int, day: Option<int>): Slot {
    Slot(id, CEVT_FILETIME, match day case Some(d) => Some(Count(DateToFiletime(d))) case None => None)
  }

  method PutDate(props: seq<Prop>, id: int, day: Option<int>, existing: Record) returns (longer: seq<Prop>)
    ensures longer == props + Emitted(DateSlot(id, day), existing)
  {
    longer := props;
    if day.Some? {
      longer := longer + [Prop(id, CEVT_FILETIME, Count(DateToFiletime(day.value)), false)];
    } else if HasProp(existing, id) {
      longer := longer + [Deleted(id, CEVT_FILETIME)];
    }
  }

  function DateOf(record: Record, id: int): Option<int> {
    match Get(record, id)
    case Some(Prop(_, _, Count(ticks), _)) => FiletimeToDate(ticks)
    case _ => None
  }

  /** FILETIME zero stands for "no date", so the device cannot hold its own epoch. */
  function KeptDate(day: Option<int>): Option<int> {
    if day.Some? && day.value > 0 then day else None
  }

  lemma {:induction false} DateReads(after: Record, id: int, day: Option<int>)
    requires Get(after, id) == SlotProp(DateSlot(id, day))
    ensures DateOf(after, id) == KeptDate(day)
  {
    if day.Some? {
      var d := day.value;
      assert DateToFiletime(d) / 10 == d * (TICKS_PER_DAY / 10);
    }
  }
}
