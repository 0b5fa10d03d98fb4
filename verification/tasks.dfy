/** Tasks and their device records. */
module Tasks {
  import opened Wrappers
  import opened Cedb
  import opened Text
  import opened NotesBlob
  import opened PocketRecord
  import opened PocketFields

  const TASK_START := 0x4104
  const TASK_DUE := 0x4105
  const TASK_COMPLETED := 0x410F

  const IMPORTANCE_HIGH := 1
  const IMPORTANCE_NORMAL := 2
  const IMPORTANCE_LOW := 3

  datatype Task = Task(
    summary: string,
    due: Option<int>,
    start: Option<int>,
    completed: Option<int>,
    priority: string,
    notes: string,
    categories: seq<string>,
    private: bool)

  function PriorityCode(priority: string): int {
    if priority == "high" then IMPORTANCE_HIGH else if priority == "low" then IMPORTANCE_LOW else IMPORTANCE_NORMAL
  }

  function PriorityName(code: int): string {
    if code == IMPORTANCE_HIGH then "high" else if code == IMPORTANCE_LOW then "low" else "normal"
  }

  function Normalized(task: Task): Task {
    task.(
      summary := Strip(task.summary),
      notes := CleanNotes(task.notes),
      categories := CleanList(task.categories, []),
      priority := if task.priority in ["high", "normal", "low"] then task.priority else "normal")
  }

  /** A completion on an unknown day is written as done today. */
  function CompletedDay(completed: Option<int>, today: int): Option<int> {
    if completed == Some(UNKNOWN_DATE) then Some(today) else completed
  }

  function Subject(summary: string): string { if summary != "" then summary else NO_SUBJECT }

  function FixedSlots(item: Task): seq<Slot> {
    [ Always(SUBJECT, CEVT_LPWSTR, Words(Subject(item.summary))),
      Always(IMPORTANCE, CEVT_I4, Count(PriorityCode(item.priority))),
      Always(SENSITIVITY, CEVT_I2, Count(if item.private then SENSITIVITY_PRIVATE else SENSITIVITY_PUBLIC)) ]
  }

  function DateSlots(item: Task): seq<Slot> { [DateSlot(TASK_START, item.start), DateSlot(TASK_DUE, item.due)] }

  function CompletionSlot(item: Task, today: int): Slot {
    DateSlot(TASK_COMPLETED, CompletedDay(item.completed, today))
  }

  function TextSlots(cp: Codepage, item: Task): seq<Slot> {
    [ NotesSlot(cp, NOTES, item.notes), CategoriesSlot(item.categories) ]
  }

  function Slots(cp: Codepage, item: Task, today: int): seq<Slot> {
    FixedSlots(item) + DateSlots(item) + [CompletionSlot(item, today)] + TextSlots(cp, item)
  }

  /** The properties every task has. */
  function FixedProps(item: Task): seq<Prop> {
    [ Prop(SUBJECT, CEVT_LPWSTR, Words(Subject(item.summary)), false),
      Prop(IMPORTANCE, CEVT_I4, Count(PriorityCode(item.priority)), false),
      Prop(SENSITIVITY, CEVT_I2, Count(if item.private then SENSITIVITY_PRIVATE else SENSITIVITY_PUBLIC), false) ]
  }

  method Encode(cp: Codepage, task: Task, existing: Record, today: int) returns (props: seq<Prop>)
    ensures props == Emit(Slots(cp, Normalized(task), today), existing)
  {
    var item := Normalized(task);
    props := FixedProps(item);
    props := PutDate(props, TASK_START, item.start, existing);
    props := PutDate(props, TASK_DUE, item.due, existing);
    var completed := if item.completed == Some(UNKNOWN_DATE) then Some(today) else item.completed;
    props := PutDate(props, TASK_COMPLETED, completed, existing);
    props := PutNotes(cp, props, NOTES, item.notes, existing);
    props := PutString(props, CATEGORIES, JoinCategories(item.categories), existing);
    EmittedInOrder(cp, item, today, existing);
  }

  lemma {:induction false} EmittedInOrder(cp: Codepage, item: Task, today: int, existing: Record)
    ensures Emit(Slots(cp, item, today), existing) ==
        FixedProps(item)
        + Emitted(DateSlot(TASK_START, item.start), existing)
        + Emitted(DateSlot(TASK_DUE, item.due), existing)
        + Emitted(DateSlot(TASK_COMPLETED, CompletedDay(item.completed, today)), existing)
        + Emitted(NotesSlot(cp, NOTES, item.notes), existing)
        + Emitted(CategoriesSlot(item.categories), existing)
  {
    var f, d, c, t := FixedSlots(item), DateSlots(item), CompletionSlot(item, today), TextSlots(cp, item);
    EmitConcat(f, d, existing);
    EmitSnoc(f + d, c, existing);
    EmitConcat(f + d + [c], t, existing);
    FixedEmitted(item, existing);
    EmitTwo(d[0], d[1], existing);
    EmitTwo(t[0], t[1], existing);
    Regroup(FixedProps(item), Emitted(d[0], existing), Emitted(d[1], existing), Emitted(c, existing),
            Emitted(t[0], existing), Emitted(t[1], existing));
  }

  lemma {:induction false} FixedEmitted(item: Task, existing: Record)
    ensures Emit(FixedSlots(item), existing) == FixedProps(item)
  {
    var f := FixedSlots(item);
    EmitThree(f[0], f[1], f[2], existing);
  }

  lemma {:induction false} Regroup<T>(f: seq<T>, a: seq<T>, b: seq<T>, c: seq<T>, d: seq<T>, e: seq<T>)
    ensures f + (a + b) + c + (d + e) == f + a + b + c + d + e
  {
  }

  /** What one property says of a task's completion: devices write a FILETIME or a flag. */
  function CompletionIn(p: Prop): Option<int> {
    if p.held == Count(0) || p.held == Truth(false) then None
    else if p.kind == CEVT_FILETIME && p.held.Count? && FiletimeToDate(p.held.number).Some? then
      FiletimeToDate(p.held.number)
    else Some(UNKNOWN_DATE)
  }

  function CompletedOf(record: Record): Option<int> {
    match Get(record, TASK_COMPLETED)
    case None => None
    case Some(p) => CompletionIn(p)
  }

  function Decode(cp: Codepage, record: Record): Task {
    Task(
      summary := StringOf(record, SUBJECT),
      due := DateOf(record, TASK_DUE),
      start := DateOf(record, TASK_START),
      completed := CompletedOf(record),
      priority := PriorityName(IntOf(record, IMPORTANCE, IMPORTANCE_NORMAL)),
      notes := NotesOf(cp, record),
      categories := SplitCategories(StringOf(record, CATEGORIES)),
      private := IntOf(record, SENSITIVITY, 0) == SENSITIVITY_PRIVATE)
  }

  /** A completion day before 1601 cannot be told from an unknown one. */
  function KeptCompletion(day: Option<int>): Option<int> {
    if day.Some? && day.value < 0 then Some(UNKNOWN_DATE) else KeptDate(day)
  }

  /** The task as a device keeps it, said without any record. */
  function DeviceForm(cp: Codepage, task: Task, today: int): Task { FormOf(cp, Normalized(task), today) }

  function FormOf(cp: Codepage, item: Task, today: int): Task {
    item.(
      summary := Subject(item.summary),
      due := KeptDate(item.due),
      start := KeptDate(item.start),
      completed := KeptCompletion(CompletedDay(item.completed, today)),
      notes := Kept(cp, item.notes),
      categories := Pieces(item.categories))
  }

  lemma {:induction false} SlotsDistinct(cp: Codepage, item: Task, today: int)
    ensures Distinct(Slots(cp, item, today))
  {
  }

  lemma {:induction false} FixedRead(item: Task, after: Record)
    requires Reads(after, FixedSlots(item))
    ensures StringOf(after, SUBJECT) == Subject(item.summary)
    ensures IntOf(after, IMPORTANCE, IMPORTANCE_NORMAL) == PriorityCode(item.priority)
    ensures IntOf(after, SENSITIVITY, 0) == if item.private then SENSITIVITY_PRIVATE else SENSITIVITY_PUBLIC
  {
    var s := FixedSlots(item);
    assert s[0].id == SUBJECT && s[1].id == IMPORTANCE && s[2].id == SENSITIVITY;
  }

  lemma {:induction false} OthersRead(cp: Codepage, item: Task, after: Record)
    requires Reads(after, DateSlots(item)) && Reads(after, TextSlots(cp, item))
    ensures Get(after, TASK_START) == SlotProp(DateSlot(TASK_START, item.start))
    ensures Get(after, TASK_DUE) == SlotProp(DateSlot(TASK_DUE, item.due))
    ensures Get(after, NOTES) == SlotProp(NotesSlot(cp, NOTES, item.notes))
    ensures Get(after, CATEGORIES) == SlotProp(CategoriesSlot(item.categories))
  {
    var d, t := DateSlots(item), TextSlots(cp, item);
    assert d[0].id == TASK_START && d[1].id == TASK_DUE;
    assert t[0].id == NOTES && t[1].id == CATEGORIES;
  }

  lemma {:induction false} PriorityReads(item: Task)
    ensures PriorityName(PriorityCode(Normalized(item).priority)) == Normalized(item).priority
  {
  }

  lemma {:induction false} ItemReads(cp: Codepage, item: Task, today: int, after: Record)
    requires Extends7Bit(cp) && Strip(item.notes) == item.notes && (forall s | s in item.categories :: IsSolid(s))
    requires PriorityName(PriorityCode(item.priority)) == item.priority
    requires Reads(after, FixedSlots(item)) && Reads(after, DateSlots(item)) && Reads(after, TextSlots(cp, item))
    ensures Decode(cp, after) == FormOf(cp, item, today).(completed := CompletedOf(after))
  {
    FixedRead(item, after);
    OthersRead(cp, item, after);
    DateReads(after, TASK_START, item.start);
    DateReads(after, TASK_DUE, item.due);
    NotesRead(cp, after, item.notes);
    CategoriesRead(after, item.categories);
  }

  // ----- the merge-write -----

  /** The record's properties have the codec's types, the completion's left open: devices also store it as a flag. */
  ghost predicate OtherKindsMatch(existing: Record, slots: seq<Slot>) {
    forall s :: s in slots && s.id != TASK_COMPLETED ==> KindMatches(existing, s)
  }

  /** The write leaves an old completion of another type, and that says something else than `day`. */
  predicate StaleCompletion(existing: Record, day: Option<int>) {
    exists q :: q in existing && q.id == TASK_COMPLETED && q.kind != CEVT_FILETIME && CompletionIn(q) != day
  }

  /** What the new task has for its completion. */
  function NewCompletion(task: Task, today: int): Option<int> {
    KeptCompletion(CompletedDay(Normalized(task).completed, today))
  }

  /** Over any record, all but the completion is the device form's, and that is too unless a stale one is read. */
  lemma {:induction false} MergeWriteAny(cp: Codepage, task: Task, today: int, existing: Record, after: Record)
    requires Extends7Bit(cp)
    requires OtherKindsMatch(existing, Slots(cp, Normalized(task), today))
    requires Lists(after, Write(existing, Emit(Slots(cp, Normalized(task), today), existing)))
    ensures Decode(cp, after) == DeviceForm(cp, task, today).(completed := CompletedOf(after))
    ensures !StaleCompletion(existing, NewCompletion(task, today)) ==>
      CompletedOf(after) == NewCompletion(task, today)
  {
    var item := Normalized(task);
    var slots := Slots(cp, item, today);
    PriorityReads(task);
    CleanListSolid(task.categories, []);
    SlotsDistinct(cp, item, today);
    PartReads(existing, slots, after, FixedSlots(item));
    PartReads(existing, slots, after, DateSlots(item));
    PartReads(existing, slots, after, TextSlots(cp, item));
    ItemReads(cp, item, today, after);
    CompletionLeft(existing, slots, item, today, after);
  }

  /** The completion read is the one written, or an old one of another type. */
  lemma {:induction false} CompletionLeft(existing: Record, slots: seq<Slot>, item: Task, today: int, after: Record)
    requires Distinct(slots) && CompletionSlot(item, today) in slots
    requires Lists(after, Write(existing, Emit(slots, existing)))
    ensures !StaleCompletion(existing, KeptCompletion(CompletedDay(item.completed, today))) ==>
      CompletedOf(after) == KeptCompletion(CompletedDay(item.completed, today))
  {
    var slot := CompletionSlot(item, today);
    var day := CompletedDay(item.completed, today);
    var written := Prop(slot.id, slot.kind, Count(if day.Some? then DateToFiletime(day.value) else 0), false);
    assert forall s :: s in slots && s.id == slot.id ==> s == slot;
    GetFinds(after, TASK_COMPLETED);
    WriteLeaves(existing, slots, written);
    if Get(after, TASK_COMPLETED).Some? {
      WriteLeaves(existing, slots, Get(after, TASK_COMPLETED).value);
    }
    WrittenCompletion(day);
  }

  lemma {:induction false} WrittenCompletion(day: Option<int>)
    ensures day.Some? ==>
      CompletionIn(Prop(TASK_COMPLETED, CEVT_FILETIME, Count(DateToFiletime(day.value)), false)) == KeptCompletion(day)
  {
    if day.Some? {
      var after := [Prop(TASK_COMPLETED, CEVT_FILETIME, Count(DateToFiletime(day.value)), false)];
      DateReads(after, TASK_COMPLETED, day);
    }
  }

  /** Unless the old record keeps a completion of another type that says something else, nothing of it shows. */
  lemma {:induction false} MergeWrite(cp: Codepage, task: Task, today: int, existing: Record, after: Record)
    requires Extends7Bit(cp)
    requires OtherKindsMatch(existing, Slots(cp, Normalized(task), today))
    requires !StaleCompletion(existing, NewCompletion(task, today))
    requires Lists(after, Write(existing, Emit(Slots(cp, Normalized(task), today), existing)))
    ensures Decode(cp, after) == DeviceForm(cp, task, today)
  {
    MergeWriteAny(cp, task, today, existing, after);
  }

  /** Any one property may be the first the device lists. */
  lemma {:induction false} ListedFirst(record: Record, q: Prop) returns (after: Record)
    requires q in record
    ensures Lists(after, record) && multiset(after) == multiset(record) && Get(after, q.id) == Some(q)
  {
    var i :| 0 <= i < |record| && record[i] == q;
    after := [q] + (record[..i] + record[i + 1..]);
    assert record == record[..i] + ([q] + record[i + 1..]);
    assert multiset(after) == multiset(record);
    assert forall p :: p in after <==> p in multiset(after);
    assert forall p :: p in record <==> p in multiset(record);
  }

  /** Every listing of the written record reads as the device form exactly when no stale completion is left. */
  lemma {:induction false} MergeWriteExactly(cp: Codepage, task: Task, today: int, existing: Record)
    requires Extends7Bit(cp)
    requires OtherKindsMatch(existing, Slots(cp, Normalized(task), today))
    ensures
      (forall after :: Lists(after, Write(existing, Emit(Slots(cp, Normalized(task), today), existing))) ==>
          Decode(cp, after) == DeviceForm(cp, task, today))
      <==> !StaleCompletion(existing, NewCompletion(task, today))
  {
    var slots := Slots(cp, Normalized(task), today);
    var written := Write(existing, Emit(slots, existing));
    forall after | Lists(after, written) && !StaleCompletion(existing, NewCompletion(task, today))
      ensures Decode(cp, after) == DeviceForm(cp, task, today)
    {
      MergeWriteAny(cp, task, today, existing, after);
    }
    if StaleCompletion(existing, NewCompletion(task, today)) {
      var q :| q in existing && q.id == TASK_COMPLETED && q.kind != CEVT_FILETIME
               && CompletionIn(q) != NewCompletion(task, today);
      SlotsDistinct(cp, Normalized(task), today);
      assert CompletionSlot(Normalized(task), today) in slots;
      WriteLeaves(existing, slots, q);
      var after := ListedFirst(written, q);
      assert Lists(after, written) && Decode(cp, after).completed == CompletionIn(q);
    }
  }

  /** A task marked as not done, over a record whose flag says done, reads as done on the unknown day. */
  lemma {:induction false} FlagStaysSet(cp: Codepage, task: Task, today: int, after: Record)
    requires Extends7Bit(cp) && task.completed.None?
    requires var existing := [Prop(TASK_COMPLETED, CEVT_I2, Count(1), false)];
      Lists(after, Write(existing, Emit(Slots(cp, Normalized(task), today), existing)))
    ensures Decode(cp, after).completed == Some(UNKNOWN_DATE) && DeviceForm(cp, task, today).completed == None
  {
    var existing := [Prop(TASK_COMPLETED, CEVT_I2, Count(1), false)];
    var slots := Slots(cp, Normalized(task), today);
    SlotsDistinct(cp, Normalized(task), today);
    assert CompletionSlot(Normalized(task), today) in slots;
    GetFinds(after, TASK_COMPLETED);
    WriteLeaves(existing, slots, existing[0]);
    WriteLeaves(existing, slots, Get(after, TASK_COMPLETED).value);
  }

  /** What a device can hold of a task as it is. */
  ghost predicate Holdable(cp: Codepage, item: Task, today: int) {
    && item.summary != ""
    && (item.due.Some? ==> item.due.value > 0)
    && (item.start.Some? ==> item.start.value > 0)
    && (item.completed.Some? ==> item.completed.value > 0)
    && (item.completed == Some(UNKNOWN_DATE) ==> today == UNKNOWN_DATE)
    && Keepable(cp, item.notes)
    && forall s | s in item.categories :: ',' !in s
  }

  /** The device form is the task itself, normalised, for exactly the tasks a device can hold. */
  lemma {:induction false} KeptExactly(cp: Codepage, task: Task, today: int)
    requires Extends7Bit(cp) && 0 < today
    ensures DeviceForm(cp, task, today) == Normalized(task) <==> Holdable(cp, Normalized(task), today)
  {
    var item := Normalized(task);
    NotesBlob.KeptExactly(cp, item.notes);
    CleanListSolid(task.categories, []);
    CategoriesExactly(item.categories);
  }
}
