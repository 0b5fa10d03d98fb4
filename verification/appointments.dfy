/** Appointments and their device records. */
module Appointments {
  import opened Wrappers
  import opened Cedb
  import opened Text
  import opened NotesBlob
  import opened PocketRecord
  import opened PocketFields

  const REMINDER_MINUTES := 0x4501
  const REMINDER_ENABLED := 0x4503
  const REMINDER_SOUND := 0x4509
  const REMINDER_OPTIONS := 0x450A
  const UNKNOWN_0002 := 0x0002
  const APPT_LOCATION := 0x4208
  const APPT_START := 0x420D
  const APPT_DURATION := 0x4213
  const APPT_TYPE := 0x4215
  const APPT_OCCURRENCE := 0x4223
  const APPT_BUSY_STATUS := 0x000F
  const APPT_RECURRENCE_PATTERN := 0x4015

  const APPT_TYPE_ALL_DAY := 1
  const APPT_TYPE_NORMAL := 2
  const OCCURRENCE_ONCE := 0
  const OCCURRENCE_REPEATED := 1
  const DEFAULT_REMINDER_OPTIONS := 13
  const DEFAULT_REMINDER_SOUND := "Alarm1.wav"

  const MINUTES_PER_DAY := 1440
  const SECOND := 1_000_000
  const MINUTE := 60 * SECOND
  const DAY := MINUTES_PER_DAY * MINUTE

  /** Moments are microseconds since 1 January 1601, on the device's own clock. */
  const FALLBACK_START := UNKNOWN_DATE * DAY

  datatype Appointment = Appointment(
    summary: string,
    start: int,
    end: int,
    allDay: bool,
    location: string,
    notes: string,
    categories: seq<string>,
    busy: string,
    private: bool,
    reminder: Option<int>,
    recurring: bool)

  function Max(a: int, b: int): int { if a > b then a else b }

  function Midnight(moment: int): int { moment / DAY * DAY }

  function DaysFromDuration(minutes: int): int {
    if minutes <= 1 then 1
    else if minutes % MINUTES_PER_DAY == 0 then minutes / MINUTES_PER_DAY
    else if (minutes - 1) % MINUTES_PER_DAY == 0 then (minutes - 1) / MINUTES_PER_DAY + 1
    else (minutes + MINUTES_PER_DAY - 1) / MINUTES_PER_DAY
  }

  function DurationForDays(days: int): int { (Max(days, 1) - 1) * MINUTES_PER_DAY + 1 }

  /** `round(x / 60 seconds)`: to the nearest minute, an exact half to the even one. */
  function RoundMinutes(x: int): int {
    var q, r := x / MINUTE, x % MINUTE;
    if 2 * r < MINUTE || (2 * r == MINUTE && q % 2 == 0) then q else q + 1
  }

  function BusyCode(busy: string): int {
    if busy == "free" then 0 else if busy == "tentative" then 1 else if busy == "out_of_office" then 3 else 2
  }

  function BusyName(code: int): string {
    if code == 0 then "free" else if code == 1 then "tentative" else if code == 3 then "out_of_office" else "busy"
  }

  function Normalized(a: Appointment): Appointment {
    a.(
      summary := Strip(a.summary),
      location := Strip(a.location),
      notes := CleanNotes(a.notes),
      categories := CleanList(a.categories, []),
      busy := if a.busy in ["free", "tentative", "busy", "out_of_office"] then a.busy else "busy",
      start := a.start / SECOND * SECOND,
      end := a.end / SECOND * SECOND)
  }

  // ----- encode -----

  function Subject(summary: string): string { if summary != "" then summary else NO_SUBJECT }

  function StoredStart(item: Appointment): int { if item.allDay then Midnight(item.start) else item.start }

  function StoredDuration(item: Appointment): int {
    if item.allDay then DurationForDays(Max((Midnight(item.end) - Midnight(item.start)) / DAY, 1))
    else Max(RoundMinutes(item.end - item.start), 0)
  }

  function FixedSlots(item: Appointment): seq<Slot> {
    [ Always(SUBJECT, CEVT_LPWSTR, Words(Subject(item.summary))),
      Always(APPT_START, CEVT_FILETIME, Count(StoredStart(item) * 10)),
      Always(APPT_DURATION, CEVT_I4, Count(StoredDuration(item))),
      Always(APPT_TYPE, CEVT_I4, Count(if item.allDay then APPT_TYPE_ALL_DAY else APPT_TYPE_NORMAL)),
      Always(APPT_OCCURRENCE, CEVT_I2, Count(OCCURRENCE_ONCE)),
      Always(APPT_BUSY_STATUS, CEVT_I2, Count(BusyCode(item.busy))),
      Always(SENSITIVITY, CEVT_I2, Count(if item.private then SENSITIVITY_PRIVATE else SENSITIVITY_PUBLIC)),
      Always(UNKNOWN_0002, CEVT_I4, Count(0)) ]
  }

  function TextSlots(cp: Codepage, item: Appointment): seq<Slot> {
    [ TextSlot(APPT_LOCATION, item.location), NotesSlot(cp, NOTES, item.notes), CategoriesSlot(item.categories) ]
  }

  function ReminderSlots(minutes: Option<int>): seq<Slot> {
    match minutes
    case None => [Always(REMINDER_ENABLED, CEVT_I2, Count(0)), Slot(REMINDER_MINUTES, CEVT_I4, None)]
    case Some(n) =>
      [ Always(REMINDER_ENABLED, CEVT_I2, Count(1)),
        Always(REMINDER_MINUTES, CEVT_I4, Count(Max(n, 0))),
        Always(REMINDER_OPTIONS, CEVT_I4, Count(DEFAULT_REMINDER_OPTIONS)),
        Always(REMINDER_SOUND, CEVT_LPWSTR, Words(DEFAULT_REMINDER_SOUND)) ]
  }

  function Slots(cp: Codepage, item: Appointment): seq<Slot> {
    FixedSlots(item) + TextSlots(cp, item) + ReminderSlots(item.reminder)
  }

  function FixedProps(item: Appointment, start: int, duration: int, kind: int): seq<Prop> {
    [ Prop(SUBJECT, CEVT_LPWSTR, Words(Subject(item.summary)), false),
      Prop(APPT_START, CEVT_FILETIME, Count(start * 10), false),
      Prop(APPT_DURATION, CEVT_I4, Count(duration), false),
      Prop(APPT_TYPE, CEVT_I4, Count(kind), false),
      Prop(APPT_OCCURRENCE, CEVT_I2, Count(OCCURRENCE_ONCE), false),
      Prop(APPT_BUSY_STATUS, CEVT_I2, Count(BusyCode(item.busy)), false),
      Prop(SENSITIVITY, CEVT_I2, Count(if item.private then SENSITIVITY_PRIVATE else SENSITIVITY_PUBLIC), false),
      Prop(UNKNOWN_0002, CEVT_I4, Count(0), false) ]
  }

  lemma {:induction false} FixedEmitted(item: Appointment, existing: Record)
    ensures Emit(FixedSlots(item), existing) ==
            FixedProps(item, StoredStart(item), StoredDuration(item),
                       if item.allDay then APPT_TYPE_ALL_DAY else APPT_TYPE_NORMAL)
  {
    EmitValues(FixedSlots(item), existing,
               FixedProps(item, StoredStart(item), StoredDuration(item),
                          if item.allDay then APPT_TYPE_ALL_DAY else APPT_TYPE_NORMAL));
  }

  method ReminderProps(minutes: Option<int>, existing: Record) returns (props: seq<Prop>)
    ensures props == Emit(ReminderSlots(minutes), existing)
  {
    if minutes.None? {
      props := [Prop(REMINDER_ENABLED, CEVT_I2, Count(0), false)];
      if HasProp(existing, REMINDER_MINUTES) {
        props := props + [Deleted(REMINDER_MINUTES, CEVT_I4)];
      }
      EmitTwo(ReminderSlots(minutes)[0], ReminderSlots(minutes)[1], existing);
    } else {
      props := [
        Prop(REMINDER_ENABLED, CEVT_I2, Count(1), false),
        Prop(REMINDER_MINUTES, CEVT_I4, Count(Max(minutes.value, 0)), false),
        Prop(REMINDER_OPTIONS, CEVT_I4, Count(DEFAULT_REMINDER_OPTIONS), false),
        Prop(REMINDER_SOUND, CEVT_LPWSTR, Words(DEFAULT_REMINDER_SOUND), false)];
      EmitValues(ReminderSlots(minutes), existing, props);
    }
  }

  lemma {:induction false} EmittedInOrder(cp: Codepage, item: Appointment, existing: Record, fixed: seq<Prop>)
    requires fixed == FixedProps(item, StoredStart(item), StoredDuration(item),
                                 if item.allDay then APPT_TYPE_ALL_DAY else APPT_TYPE_NORMAL)
    ensures Emit(Slots(cp, item), existing) ==
        fixed
        + Emitted(TextSlot(APPT_LOCATION, item.location), existing)
        + Emitted(NotesSlot(cp, NOTES, item.notes), existing)
        + Emitted(CategoriesSlot(item.categories), existing)
        + Emit(ReminderSlots(item.reminder), existing)
  {
    var f, t := FixedSlots(item), TextSlots(cp, item);
    FixedEmitted(item, existing);
    EmitConcat(f, t, existing);
    EmitConcat(f + t, ReminderSlots(item.reminder), existing);
    EmitThree(t[0], t[1], t[2], existing);
    Regroup(Emit(f, existing), Emitted(t[0], existing), Emitted(t[1], existing), Emitted(t[2], existing));
  }

  lemma {:induction false} Regroup<T>(f: seq<T>, a: seq<T>, b: seq<T>, c: seq<T>)
    ensures f + (a + b + c) == f + a + b + c
  {
  }

  method Times(appt: Appointment) returns (start: int, duration: int, kind: int)
    ensures start == StoredStart(appt) && duration == StoredDuration(appt)
    ensures kind == if appt.allDay then APPT_TYPE_ALL_DAY else APPT_TYPE_NORMAL
  {
    if appt.allDay {
      start := Midnight(appt.start);
      var days := Max((Midnight(appt.end) - start) / DAY, 1);
      duration, kind := DurationForDays(days), APPT_TYPE_ALL_DAY;
    } else {
      start := appt.start;
      duration := Max(RoundMinutes(appt.end - appt.start), 0);
      kind := APPT_TYPE_NORMAL;
    }
  }

  method Encode(cp: Codepage, appointment: Appointment, existing: Record) returns (props: seq<Prop>)
    ensures props == Emit(Slots(cp, Normalized(appointment)), existing)
  {
    var appt := Normalized(appointment);
    var start, duration, kind := Times(appt);
    props := FixedProps(appt, start, duration, kind);
    EmittedInOrder(cp, appt, existing, props);
    props := PutString(props, APPT_LOCATION, appt.location, existing);
    props := PutNotes(cp, props, NOTES, appt.notes, existing);
    props := PutString(props, CATEGORIES, JoinCategories(appt.categories), existing);
    var reminder := ReminderProps(appt.reminder, existing);
    props := props + reminder;
  }

  // ----- decode -----

  function StartOf(ticks: int): int { if ticks <= 0 then FALLBACK_START else ticks / 10 }

  function IsRecurring(record: Record): bool {
    IntOf(record, APPT_OCCURRENCE, 0) == OCCURRENCE_REPEATED || HasProp(record, APPT_RECURRENCE_PATTERN)
  }

  function Decode(cp: Codepage, record: Record): Appointment {
    var moment := StartOf(IntOf(record, APPT_START, 0));
    var duration := IntOf(record, APPT_DURATION, 0);
    var allDay := IntOf(record, APPT_TYPE, APPT_TYPE_NORMAL) == APPT_TYPE_ALL_DAY;
    var start := if allDay then Midnight(moment) else moment;
    Appointment(
      summary := StringOf(record, SUBJECT),
      start := start,
      end := if allDay then start + DaysFromDuration(duration) * DAY else start + Max(duration, 0) * MINUTE,
      allDay := allDay,
      location := StringOf(record, APPT_LOCATION),
      notes := NotesOf(cp, record),
      categories := SplitCategories(StringOf(record, CATEGORIES)),
      busy := BusyName(IntOf(record, APPT_BUSY_STATUS, 2)),
      private := IntOf(record, SENSITIVITY, 0) == SENSITIVITY_PRIVATE,
      reminder := if IntOf(record, REMINDER_ENABLED, 0) != 0 then Some(IntOf(record, REMINDER_MINUTES, 0)) else None,
      recurring := IsRecurring(record))
  }

  // ----- what the device keeps -----

  /** The first moment a FILETIME can hold is one day, or one tick, after its epoch. */
  function KeptStart(moment: int): int { if moment <= 0 then FALLBACK_START else moment }

  /** An all-day event lasts its whole days, at least one; any other a whole number of minutes, at least none. */
  function KeptLength(item: Appointment): int {
    if item.allDay then Max(Midnight(item.end) - Midnight(item.start), DAY)
    else Max(RoundMinutes(item.end - item.start), 0) * MINUTE
  }

  function FormOf(cp: Codepage, item: Appointment): Appointment {
    var start := KeptStart(StoredStart(item));
    item.(
      summary := Subject(item.summary),
      start := start,
      end := start + KeptLength(item),
      notes := Kept(cp, item.notes),
      categories := Pieces(item.categories),
      reminder := match item.reminder case None => None case Some(n) => Some(Max(n, 0)),
      recurring := false)
  }

  /** The appointment as a device keeps it, said without any record. */
  function DeviceForm(cp: Codepage, appointment: Appointment): Appointment { FormOf(cp, Normalized(appointment)) }

  // ----- arithmetic -----

  lemma {:induction false} DaysRead(days: int)
    requires days >= 1
    ensures DaysFromDuration(DurationForDays(days)) == days
  {
    if days > 1 {
      var minutes := DurationForDays(days);
      assert minutes == (days - 1) * MINUTES_PER_DAY + 1;
      assert minutes % MINUTES_PER_DAY == 1;
    }
  }

  /** A timed event's length is off by no more than half a minute. */
  lemma {:induction false} RoundsToNearest(x: int)
    ensures -MINUTE <= 2 * (RoundMinutes(x) * MINUTE - x) <= MINUTE
    ensures x % MINUTE == 0 <==> RoundMinutes(x) * MINUTE == x
  {
  }

  lemma {:induction false} MidnightTwice(moment: int)
    ensures Midnight(Midnight(moment)) == Midnight(moment)
    ensures Midnight(FALLBACK_START) == FALLBACK_START
    ensures Midnight(moment) % DAY == 0
  {
  }

  lemma {:induction false} LengthReads(item: Appointment)
    ensures item.allDay ==> DaysFromDuration(StoredDuration(item)) * DAY == KeptLength(item)
    ensures !item.allDay ==> Max(StoredDuration(item), 0) * MINUTE == KeptLength(item)
  {
    if item.allDay {
      var days := Midnight(item.end) / DAY - Midnight(item.start) / DAY;
      MidnightTwice(item.end);
      MidnightTwice(item.start);
      assert Midnight(item.end) - Midnight(item.start) == days * DAY;
      DaysRead(Max(days, 1));
    }
  }

  // ----- reading back -----

  /** Where a property comes in the order of writing. */
  function Place(id: int): int {
    if id == SUBJECT then 0 else if id == APPT_START then 1 else if id == APPT_DURATION then 2
    else if id == APPT_TYPE then 3 else if id == APPT_OCCURRENCE then 4 else if id == APPT_BUSY_STATUS then 5
    else if id == SENSITIVITY then 6 else if id == UNKNOWN_0002 then 7 else PlaceOfOther(id)
  }

  function PlaceOfOther(id: int): int {
    if id == APPT_LOCATION then 8 else if id == NOTES then 9 else if id == CATEGORIES then 10
    else if id == REMINDER_ENABLED then 11 else if id == REMINDER_MINUTES then 12
    else if id == REMINDER_OPTIONS then 13 else if id == REMINDER_SOUND then 14
    else -1
  }

  lemma {:induction false} PlacesOfFixed(item: Appointment)
    ensures AtPlaces(FixedSlots(item), 0)
  {
  }

  lemma {:induction false} PlacesOfTexts(cp: Codepage, item: Appointment)
    ensures AtPlaces(TextSlots(cp, item), 8)
  {
  }

  lemma {:induction false} PlacesOfReminder(minutes: Option<int>)
    ensures AtPlaces(ReminderSlots(minutes), 11)
  {
  }

  /** The slots' places are consecutive from `first` on. */
  ghost predicate AtPlaces(slots: seq<Slot>, first: nat) {
    forall i: nat :: i < |slots| ==> Place(slots[i].id) == first + i
  }

  lemma {:induction false} SlotsDistinct(cp: Codepage, item: Appointment)
    ensures Distinct(Slots(cp, item))
    ensures !Named(APPT_RECURRENCE_PATTERN, Slots(cp, item))
  {
    PlacesOfFixed(item);
    PlacesOfTexts(cp, item);
    PlacesOfReminder(item.reminder);
    PlacesJoin(FixedSlots(item), TextSlots(cp, item), ReminderSlots(item.reminder));
  }

  lemma {:induction false} PlacesJoin(f: seq<Slot>, t: seq<Slot>, r: seq<Slot>)
    requires |f| == 8 && |t| == 3 && AtPlaces(f, 0) && AtPlaces(t, 8) && AtPlaces(r, 11)
    ensures Distinct(f + t + r) && !Named(APPT_RECURRENCE_PATTERN, f + t + r)
  {
    forall i | 0 <= i < |f + t + r|
      ensures Place((f + t + r)[i].id) == i
    {
      if i < |f| {
        assert (f + t + r)[i] == f[i];
      } else if i < |f| + |t| {
        assert (f + t + r)[i] == t[i - |f|];
      } else {
        assert (f + t + r)[i] == r[i - |f| - |t|];
      }
    }
    DistinctByPlace(f + t + r, Place);
  }

  lemma {:induction false} FixedRead(item: Appointment, after: Record)
    requires Reads(after, FixedSlots(item))
    ensures StringOf(after, SUBJECT) == Subject(item.summary)
    ensures IntOf(after, APPT_START, 0) == StoredStart(item) * 10
    ensures IntOf(after, APPT_DURATION, 0) == StoredDuration(item)
    ensures IntOf(after, APPT_TYPE, APPT_TYPE_NORMAL) == if item.allDay then APPT_TYPE_ALL_DAY else APPT_TYPE_NORMAL
    ensures IntOf(after, APPT_OCCURRENCE, 0) == OCCURRENCE_ONCE
    ensures IntOf(after, APPT_BUSY_STATUS, 2) == BusyCode(item.busy)
    ensures IntOf(after, SENSITIVITY, 0) == if item.private then SENSITIVITY_PRIVATE else SENSITIVITY_PUBLIC
  {
    var s := FixedSlots(item);
    assert s[0].id == SUBJECT && s[1].id == APPT_START && s[2].id == APPT_DURATION && s[3].id == APPT_TYPE;
    assert s[4].id == APPT_OCCURRENCE && s[5].id == APPT_BUSY_STATUS && s[6].id == SENSITIVITY;
  }

  lemma {:induction false} TextsRead(cp: Codepage, item: Appointment, after: Record)
    requires Reads(after, TextSlots(cp, item))
    ensures StringOf(after, APPT_LOCATION) == Strip(item.location)
    ensures Get(after, NOTES) == SlotProp(NotesSlot(cp, NOTES, item.notes))
    ensures Get(after, CATEGORIES) == SlotProp(CategoriesSlot(item.categories))
  {
    var t := TextSlots(cp, item);
    assert t[0].id == APPT_LOCATION && t[1].id == NOTES && t[2].id == CATEGORIES;
  }

  lemma {:induction false} ReminderReads(minutes: Option<int>, after: Record)
    requires Reads(after, ReminderSlots(minutes))
    ensures IntOf(after, REMINDER_ENABLED, 0) == if minutes.Some? then 1 else 0
    ensures minutes.Some? ==> IntOf(after, REMINDER_MINUTES, 0) == Max(minutes.value, 0)
  {
    var r := ReminderSlots(minutes);
    assert r[0].id == REMINDER_ENABLED && r[1].id == REMINDER_MINUTES;
  }

  lemma {:induction false} TimesRead(item: Appointment, after: Record)
    requires Reads(after, FixedSlots(item))
    ensures var moment := StartOf(IntOf(after, APPT_START, 0));
      && (if item.allDay then Midnight(moment) else moment) == KeptStart(StoredStart(item))
  {
    FixedRead(item, after);
    MidnightTwice(item.start);
  }

  lemma {:induction false} ItemReads(cp: Codepage, item: Appointment, after: Record)
    requires Extends7Bit(cp) && Strip(item.notes) == item.notes && (forall s | s in item.categories :: IsSolid(s))
    requires BusyName(BusyCode(item.busy)) == item.busy && Strip(item.location) == item.location
    requires Reads(after, FixedSlots(item)) && Reads(after, TextSlots(cp, item))
    requires Reads(after, ReminderSlots(item.reminder))
    ensures Decode(cp, after) == FormOf(cp, item).(recurring := HasProp(after, APPT_RECURRENCE_PATTERN))
  {
    FixedRead(item, after);
    TimesRead(item, after);
    LengthReads(item);
    TextsRead(cp, item, after);
    ReminderReads(item.reminder, after);
    NotesRead(cp, after, item.notes);
    CategoriesRead(after, item.categories);
  }

  lemma {:induction false} BusyReads(a: Appointment)
    ensures BusyName(BusyCode(Normalized(a).busy)) == Normalized(a).busy
  {
  }

  /**
   * Writing over any record and reading back gives the appointment's device form, except that a recurrence
   * pattern the old record had is still there.
   */
  lemma {:induction false} MergeWriteAny(cp: Codepage, appointment: Appointment, existing: Record, after: Record)
    requires Extends7Bit(cp)
    requires KindsMatch(existing, Slots(cp, Normalized(appointment)))
    requires Lists(after, Write(existing, Emit(Slots(cp, Normalized(appointment)), existing)))
    ensures Decode(cp, after)
         == DeviceForm(cp, appointment).(recurring := HasProp(existing, APPT_RECURRENCE_PATTERN))
  {
    var item := Normalized(appointment);
    BusyReads(appointment);
    CleanListSolid(appointment.categories, []);
    SlotsDistinct(cp, item);
    AllRead(existing, Slots(cp, item), after);
    OthersStay(existing, Slots(cp, item), after, APPT_RECURRENCE_PATTERN);
    ReadsConcat(after, FixedSlots(item) + TextSlots(cp, item), ReminderSlots(item.reminder));
    ReadsConcat(after, FixedSlots(item), TextSlots(cp, item));
    ItemReads(cp, item, after);
  }

  /** Over a record that may be written (not recurring) the result does not depend on that record at all. */
  lemma {:induction false} MergeWrite(cp: Codepage, appointment: Appointment, existing: Record, after: Record)
    requires Extends7Bit(cp) && !IsRecurring(existing)
    requires KindsMatch(existing, Slots(cp, Normalized(appointment)))
    requires Lists(after, Write(existing, Emit(Slots(cp, Normalized(appointment)), existing)))
    ensures Decode(cp, after) == DeviceForm(cp, appointment)
  {
    MergeWriteAny(cp, appointment, existing, after);
  }

  /**
   * A reminder brings its own sound and options; clearing it neither sets nor deletes them, so the old record's stay.
   */
  lemma {:induction false} ReminderExtras(cp: Codepage, appointment: Appointment, existing: Record, after: Record,
                                          id: int)
    requires id == REMINDER_SOUND || id == REMINDER_OPTIONS
    requires Lists(after, Write(existing, Emit(Slots(cp, Normalized(appointment)), existing)))
    ensures appointment.reminder.None? ==> forall q: Prop :: q.id == id ==> (q in after <==> q in existing)
    ensures HasProp(after, id) <==> appointment.reminder.Some? || HasProp(existing, id)
  {
    var item := Normalized(appointment);
    var slots := Slots(cp, item);
    SlotsDistinct(cp, item);
    GetFinds(after, id);
    GetFinds(existing, id);
    if item.reminder.Some? {
      var k := ReminderPlace(cp, item, id);
      var p := Prop(id, slots[k].kind, slots[k].held.value, false);
      WriteLeaves(existing, slots, p);
      assert slots[k] in slots && IsValue(p, slots);
    } else {
      NotNamed(cp, item, id);
      forall q: Prop | q.id == id
        ensures q in after <==> q in existing
      {
        WriteLeaves(existing, slots, q);
      }
    }
  }

  lemma {:induction false} NotNamed(cp: Codepage, item: Appointment, id: int)
    requires item.reminder.None? && (id == REMINDER_SOUND || id == REMINDER_OPTIONS)
    ensures !Named(id, Slots(cp, item))
  {
  }

  lemma {:induction false} ReminderPlace(cp: Codepage, item: Appointment, id: int) returns (k: nat)
    requires item.reminder.Some? && (id == REMINDER_SOUND || id == REMINDER_OPTIONS)
    ensures k < |Slots(cp, item)| && Slots(cp, item)[k].id == id && Slots(cp, item)[k].held.Some?
  {
    k := if id == REMINDER_OPTIONS then 13 else 14;
    assert Slots(cp, item)[k] == ReminderSlots(item.reminder)[k - 11];
  }

  /** An old alarm sound outlives the reminder it was for. */
  lemma {:induction false} SoundOutlivesReminder(cp: Codepage, appointment: Appointment, after: Record)
    requires appointment.reminder.None?
    requires var existing := [Prop(REMINDER_SOUND, CEVT_LPWSTR, Words("Alarm2.wav"), false)];
      Lists(after, Write(existing, Emit(Slots(cp, Normalized(appointment)), existing)))
    ensures StringOf(after, REMINDER_SOUND) == "Alarm2.wav"
  {
    var existing := [Prop(REMINDER_SOUND, CEVT_LPWSTR, Words("Alarm2.wav"), false)];
    ReminderExtras(cp, appointment, existing, after, REMINDER_SOUND);
    GetFinds(after, REMINDER_SOUND);
    assert existing[0] in after;
  }

  /** Whole days for an all-day event, whole minutes for any other, after the FILETIME epoch. */
  predicate TimesHoldable(item: Appointment) {
    && 0 < item.start <= item.end
    && (item.allDay ==> item.start % DAY == 0 && item.end % DAY == 0 && item.start < item.end)
    && (!item.allDay ==> (item.end - item.start) % MINUTE == 0)
  }

  /** What a device can hold of an appointment as it is. */
  ghost predicate Holdable(cp: Codepage, item: Appointment) {
    && item.summary != ""
    && TimesHoldable(item)
    && Keepable(cp, item.notes)
    && (forall s | s in item.categories :: ',' !in s)
    && (item.reminder.Some? ==> item.reminder.value >= 0)
    && !item.recurring
  }

  lemma {:induction false} MinutesExactly(x: int)
    ensures Max(RoundMinutes(x), 0) * MINUTE == x <==> x >= 0 && x % MINUTE == 0
  {
    RoundsToNearest(x);
  }

  lemma {:induction false} MidnightExactly(moment: int)
    ensures Midnight(moment) == moment <==> moment % DAY == 0
    ensures Midnight(moment) % DAY == 0 && moment - DAY < Midnight(moment) <= moment
  {
  }

  lemma {:induction false} DaysExactly(start: int, end: int)
    requires start % DAY == 0
    ensures Max(Midnight(end) - start, DAY) == end - start <==> end % DAY == 0 && start < end
  {
    var s, e := start / DAY, end / DAY;
    assert start == s * DAY && Midnight(end) == e * DAY;
    MidnightExactly(end);
    if end % DAY == 0 && start < end {
      assert e * DAY - s * DAY == (e - s) * DAY;
    }
  }

  lemma {:induction false} TimesExactly(item: Appointment)
    ensures KeptStart(StoredStart(item)) == item.start && item.start + KeptLength(item) == item.end
      <==> TimesHoldable(item)
  {
    MidnightTwice(item.start);
    if item.allDay {
      MidnightExactly(item.start);
      if item.start % DAY == 0 {
        DaysExactly(item.start, item.end);
      }
    } else {
      MinutesExactly(item.end - item.start);
    }
  }

  lemma {:induction false} ItemExactly(cp: Codepage, item: Appointment)
    requires Extends7Bit(cp) && forall s | s in item.categories :: IsSolid(s)
    ensures FormOf(cp, item) == item <==> Holdable(cp, item)
  {
    NotesBlob.KeptExactly(cp, item.notes);
    CategoriesExactly(item.categories);
    TimesExactly(item);
  }

  /** The device form is the appointment itself, normalised, for exactly the ones a device can hold. */
  lemma {:induction false} KeptExactly(cp: Codepage, appointment: Appointment)
    requires Extends7Bit(cp)
    ensures DeviceForm(cp, appointment) == Normalized(appointment) <==> Holdable(cp, Normalized(appointment))
  {
    CleanListSolid(appointment.categories, []);
    ItemExactly(cp, Normalized(appointment));
  }
}
