/** Medication reminders (MedicationReminderServiceImpl).

    Each prescription item yields one reminder per time of day whose dose
    is set and positive, at a fixed time: 08:00, 12:00, 16:00 and 20:00.
    The reminders of a list of items are grouped per item, in list order,
    and within an item run from morning to evening. They carry the item,
    the patient of the item's prescription and the dose, and start active.

    The service as written leaves the reminder's NOT NULL start and end
    dates unset, and reads the patient through the item's prescription
    association, which is null on an item saved earlier in the same
    transaction. `PlanErrorAsWritten` states what that code does; the rest
    of the model uses the corrected planning (`Plan`), which takes the
    patient and the treatment period from the item's prescription row.
 */
module MedicationReminders {
  import opened Wrappers
  import opened Dates
  import opened Tables
  import opened ClinicDb

  /** The fixed reminder time of each time of day. */
  function TimeFor(t: TimeOfDay): Minute {
    match t
    case MORNING => TimeOf(8, 0)
    case NOON => TimeOf(12, 0)
    case AFTERNOON => TimeOf(16, 0)
    case EVENING => TimeOf(20, 0)
  }

  /** Morning to evening. */
  function Rank(t: TimeOfDay): nat {
    match t
    case MORNING => 0
    case NOON => 1
    case AFTERNOON => 2
    case EVENING => 3
  }

  function DoseAt(d: Doses, t: TimeOfDay): Option<int> {
    match t
    case MORNING => d.morning
    case NOON => d.noon
    case AFTERNOON => d.afternoon
    case EVENING => d.evening
  }

  /** A reminder is due at `t` when that dose is set and positive. */
  predicate Due(d: Doses, t: TimeOfDay) {
    DoseAt(d, t).Some? && DoseAt(d, t).value > 0
  }

  /** Some time of day is due for the item. */
  predicate AnyDue(d: Doses) {
    exists t :: Due(d, t)
  }

  /** The dose due at `t`, 0 when none is set. */
  function DoseValue(d: Doses, t: TimeOfDay): int {
    if DoseAt(d, t).Some? then DoseAt(d, t).value else 0
  }

  /** `createReminderForTimeSlot`, corrected: the patient and the period
      come from the item's prescription `rx`. */
  function ReminderFor(itemId: int, rx: PrescriptionRow, t: TimeOfDay, dose: int, now: DateTime): MedReminderRow {
    MedReminderRow(itemId, rx.patientId, t, TimeFor(t), dose, rx.treatmentStartDate, rx.treatmentEndDate, Some(true), now)
  }

  /** The time of day of rank `k`. */
  function TimeAt(k: nat): (t: TimeOfDay)
    requires k < 4
    ensures Rank(t) == k
  {
    if k == 0 then MORNING else if k == 1 then NOON else if k == 2 then AFTERNOON else EVENING
  }

  /** Distinct times of day have distinct ranks. */
  lemma RankInjective()
    ensures forall t, u :: Rank(t) == Rank(u) ==> t == u
  {
  }

  /** The times of day of rank `k` or later at which a dose is due, in rank
      order. */
  function DueFrom(d: Doses, k: nat): (r: seq<TimeOfDay>)
    requires k <= 4
    ensures |r| <= 4 - k
    ensures forall t :: t in r <==> k <= Rank(t) && Due(d, t)
    ensures forall i :: 0 <= i < |r| ==> k <= Rank(r[i])
    ensures forall i, j :: 0 <= i < j < |r| ==> Rank(r[i]) < Rank(r[j])
    ensures (forall t :: !Due(d, t)) ==> r == []
    decreases 4 - k
  {
    if k == 4 then []
    else
      var rest := DueFrom(d, k + 1);
      RankInjective();
      if Due(d, TimeAt(k)) then [TimeAt(k)] + rest else rest
  }

  /** The times of day at which a dose is due, morning first. */
  function DueTimes(d: Doses): (r: seq<TimeOfDay>)
    ensures |r| <= 4
    ensures forall t :: t in r <==> Due(d, t)
    ensures !AnyDue(d) ==> r == []
    ensures forall i, j :: 0 <= i < j < |r| ==> Rank(r[i]) < Rank(r[j])
  {
    DueFrom(d, 0)
  }

  /** One reminder per time in `ts`. */
  function RemindersAt(itemId: int, rx: PrescriptionRow, d: Doses, ts: seq<TimeOfDay>, now: DateTime)
    : (r: seq<MedReminderRow>)
    ensures |r| == |ts|
    ensures forall i :: 0 <= i < |ts| ==> r[i] == ReminderFor(itemId, rx, ts[i], DoseValue(d, ts[i]), now)
  {
    seq(|ts|, i requires 0 <= i < |ts| => ReminderFor(itemId, rx, ts[i], DoseValue(d, ts[i]), now))
  }

  /** The reminders of one item: one per due time of day, morning first. */
  function PlannedFor(itemId: int, item: ItemRow, rx: PrescriptionRow, now: DateTime): (r: seq<MedReminderRow>)
    ensures |r| == |DueTimes(item.doses)|
    ensures forall i :: 0 <= i < |r| ==> r[i].reminderType == DueTimes(item.doses)[i] && ItemReminder(itemId, item, rx, r[i], now)
  {
    var ts := DueTimes(item.doses);
    var r := RemindersAt(itemId, rx, item.doses, ts, now);
    assert forall i :: 0 <= i < |ts| ==> ts[i] in ts;
    r
  }

  /** `m` is the reminder of `item` for one of its due doses. */
  predicate ItemReminder(itemId: int, item: ItemRow, rx: PrescriptionRow, m: MedReminderRow, now: DateTime) {
    Due(item.doses, m.reminderType) && m == ReminderFor(itemId, rx, m.reminderType, DoseValue(item.doses, m.reminderType), now)
  }

  /** Every reminder of an item names the patient of its prescription, and
      an item has a reminder exactly when a dose is due. */
  lemma PlannedForPatient(itemId: int, item: ItemRow, rx: PrescriptionRow, now: DateTime)
    ensures forall j :: 0 <= j < |PlannedFor(itemId, item, rx, now)| ==> PlannedFor(itemId, item, rx, now)[j].patientId == rx.patientId
    ensures PlannedFor(itemId, item, rx, now) == [] <==> !AnyDue(item.doses)
  {
    var plan := PlannedFor(itemId, item, rx, now);
    if AnyDue(item.doses) {
      var t :| Due(item.doses, t);
      assert t in DueTimes(item.doses);
    }
  }

  /** Every requested item exists. */
  predicate Known(items: Table<ItemRow>, ids: seq<int>) {
    forall i :: 0 <= i < |ids| ==> ids[i] in items.rows
  }

  /** A reminder planned for a stored item: the item's reminder for one of
      its due doses, with the patient and period of its prescription. */
  predicate Attached(items: Table<ItemRow>, prescriptions: Table<PrescriptionRow>, m: MedReminderRow, now: DateTime) {
    && m.itemId in items.rows
    && items.rows[m.itemId].prescriptionId in prescriptions.rows
    && ItemReminder(m.itemId, items.rows[m.itemId], prescriptions.rows[items.rows[m.itemId].prescriptionId], m, now)
  }

  /** The reminders `createRemindersFromPrescriptionItems` builds for `ids`,
      item after item, in list order. */
  function Plan(items: Table<ItemRow>, prescriptions: Table<PrescriptionRow>, ids: seq<int>, now: DateTime)
    : (r: seq<MedReminderRow>)
    requires Known(items, ids) && ItemsLinked(items, prescriptions)
    ensures |r| <= 4 * |ids|
    decreases |ids|
  {
    if ids == [] then []
    else
      var last := ids[|ids| - 1];
      Plan(items, prescriptions, ids[..|ids| - 1], now)
        + PlannedFor(last, items.rows[last], prescriptions.rows[items.rows[last].prescriptionId], now)
  }

  /** Every planned reminder belongs to a requested item and is that item's
      reminder for one of its due doses. */
  lemma {:induction false} PlanAttached(items: Table<ItemRow>, prescriptions: Table<PrescriptionRow>, ids: seq<int>,
                                        now: DateTime, k: int)
    requires Known(items, ids) && ItemsLinked(items, prescriptions)
    requires 0 <= k < |Plan(items, prescriptions, ids, now)|
    ensures Plan(items, prescriptions, ids, now)[k].itemId in ids
    ensures Attached(items, prescriptions, Plan(items, prescriptions, ids, now)[k], now)
    decreases |ids|
  {
    var last := ids[|ids| - 1];
    var front := Plan(items, prescriptions, ids[..|ids| - 1], now);
    var more := PlannedFor(last, items.rows[last], prescriptions.rows[items.rows[last].prescriptionId], now);
    assert Plan(items, prescriptions, ids, now) == front + more;
    if k < |front| {
      PlanAttached(items, prescriptions, ids[..|ids| - 1], now, k);
      assert (front + more)[k] == front[k];
      assert front[k].itemId in ids[..|ids| - 1];
    }
  }

  /** Items without a due dose plan nothing. */
  lemma {:induction false} PlanEmpty(items: Table<ItemRow>, prescriptions: Table<PrescriptionRow>, ids: seq<int>, now: DateTime)
    requires Known(items, ids) && ItemsLinked(items, prescriptions)
    requires forall i :: 0 <= i < |ids| ==> !AnyDue(items.rows[ids[i]].doses)
    ensures Plan(items, prescriptions, ids, now) == []
    decreases |ids|
  {
    if ids != [] {
      PlanEmpty(items, prescriptions, ids[..|ids| - 1], now);
    }
  }

  /** Some reminder of `plan` is the one of item `id` at time of day `t`. */
  predicate PlannedAt(plan: seq<MedReminderRow>, id: int, t: TimeOfDay) {
    exists k :: 0 <= k < |plan| && plan[k].itemId == id && plan[k].reminderType == t
  }

  /** Appending to a plan keeps every reminder it has. */
  lemma PlannedAtAppend(a: seq<MedReminderRow>, b: seq<MedReminderRow>, id: int, t: TimeOfDay)
    requires PlannedAt(a, id, t)
    ensures PlannedAt(a + b, id, t)
  {
    var k :| 0 <= k < |a| && a[k].itemId == id && a[k].reminderType == t;
    assert (a + b)[k] == a[k];
  }

  /** Prefixing a plan keeps every reminder it has. */
  lemma PlannedAtPrepend(a: seq<MedReminderRow>, b: seq<MedReminderRow>, id: int, t: TimeOfDay)
    requires PlannedAt(b, id, t)
    ensures PlannedAt(a + b, id, t)
  {
    var k :| 0 <= k < |b| && b[k].itemId == id && b[k].reminderType == t;
    assert (a + b)[|a| + k] == b[k];
  }

  /** An item's own reminders cover each of its due doses. */
  lemma PlannedForCovers(itemId: int, item: ItemRow, rx: PrescriptionRow, now: DateTime, t: TimeOfDay)
    requires Due(item.doses, t)
    ensures PlannedAt(PlannedFor(itemId, item, rx, now), itemId, t)
  {
    var ts := DueTimes(item.doses);
    assert t in ts;
    var j :| 0 <= j < |ts| && ts[j] == t;
    assert PlannedFor(itemId, item, rx, now)[j].reminderType == t;
  }

  /** A planned reminder exists for every due dose of every requested
      item. */
  lemma {:induction false} PlanCovers(items: Table<ItemRow>, prescriptions: Table<PrescriptionRow>, ids: seq<int>,
                                      now: DateTime, i: int, t: TimeOfDay)
    requires Known(items, ids) && ItemsLinked(items, prescriptions)
    requires 0 <= i < |ids| && Due(items.rows[ids[i]].doses, t)
    ensures PlannedAt(Plan(items, prescriptions, ids, now), ids[i], t)
    decreases |ids|
  {
    var last := ids[|ids| - 1];
    var front := Plan(items, prescriptions, ids[..|ids| - 1], now);
    var more := PlannedFor(last, items.rows[last], prescriptions.rows[items.rows[last].prescriptionId], now);
    assert Plan(items, prescriptions, ids, now) == front + more;
    if i == |ids| - 1 {
      PlannedForCovers(last, items.rows[last], prescriptions.rows[items.rows[last].prescriptionId], now, t);
      PlannedAtPrepend(front, more, ids[i], t);
    } else {
      var init := ids[..|ids| - 1];
      assert init[i] == ids[i];
      assert Known(items, init) by {
        forall x | 0 <= x < |init| ensures init[x] in items.rows { assert init[x] == ids[x]; }
      }
      PlanCovers(items, prescriptions, init, now, i, t);
      PlannedAtAppend(front, more, ids[i], t);
    }
  }

  /** Planning one more item appends that item's reminders. */
  lemma PlanSnoc(items: Table<ItemRow>, prescriptions: Table<PrescriptionRow>, ids: seq<int>, id: int, now: DateTime)
    requires Known(items, ids + [id]) && ItemsLinked(items, prescriptions)
    ensures Known(items, ids) && id in items.rows
    ensures Plan(items, prescriptions, ids + [id], now) ==
      Plan(items, prescriptions, ids, now) + PlannedFor(id, items.rows[id], prescriptions.rows[items.rows[id].prescriptionId], now)
  {
    assert (ids + [id])[|ids|] == id;
    assert (ids + [id])[..|ids|] == ids;
    assert forall i :: 0 <= i < |ids| ==> ids[i] == (ids + [id])[i];
  }

  /** A known list stays known with one more stored item. */
  lemma KnownSnoc(items: Table<ItemRow>, ids: seq<int>, id: int)
    requires Known(items, ids) && id in items.rows
    ensures Known(items, ids + [id])
  {
    assert forall i :: 0 <= i < |ids| ==> (ids + [id])[i] == ids[i];
  }

  /** Planning the first `i + 1` items extends the plan of the first `i`
      with the reminders of item `i`. */
  lemma PlanStep(items: Table<ItemRow>, prescriptions: Table<PrescriptionRow>, ids: seq<int>, i: int, now: DateTime)
    requires 0 <= i < |ids| && Known(items, ids[..i]) && ids[i] in items.rows && ItemsLinked(items, prescriptions)
    ensures Known(items, ids[..i + 1])
    ensures Plan(items, prescriptions, ids[..i + 1], now) == Plan(items, prescriptions, ids[..i], now)
      + PlannedFor(ids[i], items.rows[ids[i]], prescriptions.rows[items.rows[ids[i]].prescriptionId], now)
  {
    assert ids[..i + 1] == ids[..i] + [ids[i]];
    KnownSnoc(items, ids[..i], ids[i]);
    PlanSnoc(items, prescriptions, ids[..i], ids[i], now);
  }

  /** Every planned reminder names a stored patient. */
  predicate PatientsKnown(users: Table<UserRow>, plan: seq<MedReminderRow>) {
    forall k :: 0 <= k < |plan| ==> plan[k].patientId in users.rows
  }

  /** The corrected checks: an unknown item fails when it is looked up;
      afterwards a reminder whose patient is not a user fails its save. */
  function PlanError(items: Table<ItemRow>, prescriptions: Table<PrescriptionRow>, users: Table<UserRow>,
                     ids: seq<int>, now: DateTime): (e: Option<Exception>)
    requires ItemsLinked(items, prescriptions)
    ensures !Known(items, ids) <==> e == Some(RuntimeException)
    ensures e.None? <==> Known(items, ids) && PatientsKnown(users, Plan(items, prescriptions, ids, now))
    ensures e.Some? ==> e.value == RuntimeException || e.value == DataIntegrityViolationException
  {
    if !Known(items, ids) then Some(RuntimeException)
    else if !PatientsKnown(users, Plan(items, prescriptions, ids, now)) then Some(DataIntegrityViolationException)
    else None
  }

  /** The keys `start`, `start + 1`, ... of `n` rows saved in a row. */
  function KeysFrom(start: int, n: nat): (r: seq<int>)
    ensures |r| == n && forall i :: 0 <= i < n ==> r[i] == start + i
  {
    seq(n, i => start + i)
  }

  /** One more saved row adds the next key to the list of keys. */
  lemma KeysFromSnoc(ids: seq<int>, start: int, n: nat, id: int)
    requires ids == KeysFrom(start, n) && id == start + n
    ensures ids + [id] == KeysFrom(start, n + 1)
  {
    assert KeysFrom(start, n + 1)[..n] == KeysFrom(start, n);
  }

  /** The lookup loop of `createRemindersFromPrescriptionItems`, corrected:
      each item is looked up and its reminders are built; an unknown item
      throws. Nothing is saved. */
  method PlanReminders(db: Database, ids: seq<int>, now: DateTime) returns (r: Result<seq<MedReminderRow>>)
    requires ItemsLinked(db.items, db.prescriptions)
    ensures r.Err? <==> !Known(db.items, ids)
    ensures r.Err? ==> r.error == RuntimeException
    ensures r.Ok? ==> Known(db.items, ids) && r.value == Plan(db.items, db.prescriptions, ids, now)
  {
    var items, prescriptions := db.items, db.prescriptions;
    var planned: seq<MedReminderRow> := [];
    var i := 0;
    while i < |ids|
      invariant 0 <= i <= |ids|
      invariant Known(items, ids[..i])
      invariant planned == Plan(items, prescriptions, ids[..i], now)
    {
      var id := ids[i];
      if id !in items.rows {
        return Err(RuntimeException);
      }
      var item := items.rows[id];
      var rx := prescriptions.rows[item.prescriptionId];
      PlanStep(items, prescriptions, ids, i, now);
      planned := planned + PlannedFor(id, item, rx, now);
      i := i + 1;
    }
    assert ids[..i] == ids;
    r := Ok(planned);
  }

  /** Saving reminder `j` after the first `j` is saving the first `j + 1`,
      and keeps every reminder on a stored item. */
  lemma SaveStep(before: Table<MedReminderRow>, items: Table<ItemRow>, planned: seq<MedReminderRow>, j: int)
    requires 0 <= j < |planned| && planned[j].itemId in items.rows
    requires before.Issued() && MedRemindersLinked(before.InsertAll(planned[..j]), items)
    ensures before.InsertAll(planned[..j + 1]) == before.InsertAll(planned[..j]).Insert(planned[j])
    ensures MedRemindersLinked(before.InsertAll(planned[..j + 1]), items)
  {
    assert planned[..j + 1] == planned[..j] + [planned[j]];
    before.InsertAllSnoc(planned[..j], planned[j]);
  }

  /** The save loop of `createRemindersFromPrescriptionItems`: the reminders
      are saved one by one under the next keys, and become visible when the
      transaction commits; a reminder whose patient is not a user fails its
      save, and the failure rolls back every save. */
  method SaveReminders(db: Database, planned: seq<MedReminderRow>) returns (r: Result<seq<int>>)
    requires db.medReminders.Issued() && MedRemindersLinked(db.medReminders, db.items)
    requires forall k :: 0 <= k < |planned| ==> planned[k].itemId in db.items.rows
    modifies db`medReminders
    ensures db.medReminders.Issued() && MedRemindersLinked(db.medReminders, db.items)
    ensures r.Err? <==> !PatientsKnown(db.users, planned)
    ensures r.Err? ==> r.error == DataIntegrityViolationException && db.medReminders == old(db.medReminders)
    ensures r.Ok? ==> (
      && db.medReminders == old(db.medReminders).InsertAll(planned)
      && r.value == KeysFrom(old(db.medReminders.next), |planned|))
  {
    var before, users, items := db.medReminders, db.users, db.items;
    var saved := before;
    assert planned[..0] == [] && before.InsertAll([]).rows == before.rows;
    var j := 0;
    while j < |planned|
      invariant 0 <= j <= |planned|
      invariant db.medReminders == before
      invariant PatientsKnown(users, planned[..j])
      invariant saved == before.InsertAll(planned[..j])
      invariant saved.Issued() && MedRemindersLinked(saved, items)
    {
      if planned[j].patientId !in users.rows {
        assert !PatientsKnown(users, planned);
        return Err(DataIntegrityViolationException);
      }
      SaveStep(before, items, planned, j);
      var upTo := planned[..j + 1];
      assert PatientsKnown(users, upTo) by {
        forall k | 0 <= k < j + 1 ensures upTo[k].patientId in users.rows {
          if k < j { assert upTo[k] == planned[..j][k]; }
        }
      }
      saved := saved.Insert(planned[j]);
      j := j + 1;
    }
    assert planned[..j] == planned;
    db.medReminders := saved;
    r := Ok(KeysFrom(before.next, |planned|));
  }

  /** `createRemindersFromPrescriptionItems`, corrected, with `now` for the
      persist hook's clock: every item is looked up and planned first, then
      the reminders are saved one by one. A failure rolls back every save.
      The result is the keys of the saved reminders. */
  method CreateRemindersFromPrescriptionItems(db: Database, ids: seq<int>, now: DateTime) returns (r: Result<seq<int>>)
    requires db.medReminders.Issued() && MedRemindersLinked(db.medReminders, db.items)
    requires ItemsLinked(db.items, db.prescriptions)
    modifies db`medReminders
    ensures db.medReminders.Issued() && MedRemindersLinked(db.medReminders, db.items)
    ensures r.Err? <==> PlanError(db.items, db.prescriptions, db.users, ids, now).Some?
    ensures r.Err? ==> (
      && r.error == PlanError(db.items, db.prescriptions, db.users, ids, now).value
      && db.medReminders == old(db.medReminders))
    ensures r.Ok? ==> (
      && Known(db.items, ids)
      && db.medReminders == old(db.medReminders).InsertAll(Plan(db.items, db.prescriptions, ids, now))
      && r.value == KeysFrom(old(db.medReminders.next), |Plan(db.items, db.prescriptions, ids, now)|))
  {
    var planned := PlanReminders(db, ids, now);
    if planned.Err? {
      return Err(planned.error);
    }
    forall k | 0 <= k < |planned.value| ensures planned.value[k].itemId in db.items.rows {
      PlanAttached(db.items, db.prescriptions, ids, now, k);
    }
    r := SaveReminders(db, planned.value);
  }

  /** The lookups of the service as written, item by item: an unknown item
      throws; an item saved earlier in the same transaction (`newItems`) has
      no loaded prescription, so building its first reminder throws. */
  function LookupAsWritten(items: Table<ItemRow>, ids: seq<int>, newItems: set<int>): (e: Option<Exception>)
    ensures e.Some? ==> e.value == RuntimeException || e.value == NullPointerException
  {
    if ids == [] then None
    else if ids[0] !in items.rows then Some(RuntimeException)
    else if ids[0] in newItems && AnyDue(items.rows[ids[0]].doses) then Some(NullPointerException)
    else LookupAsWritten(items, ids[1..], newItems)
  }

  /** `createRemindersFromPrescriptionItems` as written: after the lookups,
      the first reminder saved lacks its NOT NULL start date. */
  function PlanErrorAsWritten(items: Table<ItemRow>, ids: seq<int>, newItems: set<int>): (e: Option<Exception>)
    ensures e.None? ==> forall i :: 0 <= i < |ids| ==> ids[i] in items.rows && !AnyDue(items.rows[ids[i]].doses)
  {
    LookupAsWrittenNone(items, ids, newItems);
    if LookupAsWritten(items, ids, newItems).Some? then LookupAsWritten(items, ids, newItems)
    else if exists i :: 0 <= i < |ids| && ids[i] in items.rows && AnyDue(items.rows[ids[i]].doses) then Some(DataIntegrityViolationException)
    else None
  }

  /** The lookups succeed exactly when every item is known and no fresh
      item has a due dose. */
  lemma {:induction false} LookupAsWrittenNone(items: Table<ItemRow>, ids: seq<int>, newItems: set<int>)
    ensures LookupAsWritten(items, ids, newItems).None? <==>
      forall i :: 0 <= i < |ids| ==> ids[i] in items.rows && !(ids[i] in newItems && AnyDue(items.rows[ids[i]].doses))
  {
    if ids != [] {
      LookupAsWrittenNone(items, ids[1..], newItems);
      assert forall i :: 1 <= i < |ids| ==> ids[i] == ids[1..][i - 1];
    }
  }

  /** As written, once every item is known, the lookups fail on a fresh
      item with a due dose, and with a NullPointerException. */
  lemma {:induction false} LookupAsWrittenFresh(items: Table<ItemRow>, ids: seq<int>, newItems: set<int>, j: nat)
    requires Known(items, ids) && j < |ids| && ids[j] in newItems && AnyDue(items.rows[ids[j]].doses)
    ensures LookupAsWritten(items, ids, newItems) == Some(NullPointerException)
    decreases |ids|
  {
    assert ids[0] in items.rows;
    if !(ids[0] in newItems && AnyDue(items.rows[ids[0]].doses)) {
      assert forall i :: 1 <= i < |ids| ==> ids[i] == ids[1..][i - 1];
      LookupAsWrittenFresh(items, ids[1..], newItems, j - 1);
    }
  }

  /** As written, a call either saves nothing or fails: no item with a due
      dose ever gets a reminder. */
  lemma AsWrittenSavesNothing(items: Table<ItemRow>, prescriptions: Table<PrescriptionRow>, ids: seq<int>,
                              newItems: set<int>, now: DateTime)
    requires ItemsLinked(items, prescriptions)
    requires PlanErrorAsWritten(items, ids, newItems).None?
    ensures Known(items, ids) && Plan(items, prescriptions, ids, now) == []
  {
    var p := Plan(items, prescriptions, ids, now);
    PlanEmpty(items, prescriptions, ids, now);
  }

  /** The missing dates, shown on an item stored before the call with a
      morning dose: as written the save fails; corrected, the item gets its
      morning reminder. */
  lemma MissingDatesFinding(items: Table<ItemRow>, prescriptions: Table<PrescriptionRow>, users: Table<UserRow>,
                            id: int, now: DateTime)
    requires ItemsLinked(items, prescriptions) && id in items.rows
    requires items.rows[id].doses == Doses(Some(1), Some(0), Some(0), Some(0))
    requires prescriptions.rows[items.rows[id].prescriptionId].patientId in users.rows
    ensures PlanErrorAsWritten(items, [id], {}) == Some(DataIntegrityViolationException)
    ensures PlanError(items, prescriptions, users, [id], now).None?
    ensures |Plan(items, prescriptions, [id], now)| == 1
  {
    var d := items.rows[id].doses;
    assert Due(d, MORNING);
    LookupAsWrittenNone(items, [id], {});
    MorningOnly(d);
    var rx := prescriptions.rows[items.rows[id].prescriptionId];
    assert Plan(items, prescriptions, [id], now) == Plan(items, prescriptions, [], now) + PlannedFor(id, items.rows[id], rx, now);
    assert Plan(items, prescriptions, [id], now) == [ReminderFor(id, rx, MORNING, 1, now)];
  }

  /** A morning dose alone is due in the morning alone. */
  lemma MorningOnly(d: Doses)
    requires d == Doses(Some(1), Some(0), Some(0), Some(0))
    ensures DueTimes(d) == [MORNING]
  {
    assert DueFrom(d, 1) == [] by {
      assert forall t :: 1 <= Rank(t) ==> !Due(d, t);
    }
  }

  /** The unloaded association, shown on an item saved earlier in the same
      transaction: as written building its reminder throws; corrected, the
      patient is read from the prescription row. */
  lemma UnloadedPrescriptionFinding(items: Table<ItemRow>, prescriptions: Table<PrescriptionRow>, users: Table<UserRow>,
                                    id: int, now: DateTime)
    requires ItemsLinked(items, prescriptions) && id in items.rows
    requires items.rows[id].doses == Doses(Some(1), Some(0), Some(0), Some(0))
    requires prescriptions.rows[items.rows[id].prescriptionId].patientId in users.rows
    ensures PlanErrorAsWritten(items, [id], {id}) == Some(NullPointerException)
    ensures PlanError(items, prescriptions, users, [id], now).None?
  {
    assert Due(items.rows[id].doses, MORNING);
    MissingDatesFinding(items, prescriptions, users, id, now);
  }

  /** A reminder with its active flag set. */
  function WithActive(row: MedReminderRow, active: bool): MedReminderRow {
    row.(isActive := Some(active))
  }

  /** `toggleReminder`: only the active flag changes. */
  method ToggleReminder(db: Database, id: int, active: bool) returns (r: Result<MedReminderRow>)
    requires MedRemindersLinked(db.medReminders, db.items)
    modifies db`medReminders
    ensures MedRemindersLinked(db.medReminders, db.items)
    ensures r.Err? <==> id !in old(db.medReminders.rows)
    ensures r.Err? ==> r.error == RuntimeException && db.medReminders == old(db.medReminders)
    ensures r.Ok? ==> (
      && r.value == WithActive(old(db.medReminders.rows[id]), active)
      && db.medReminders == old(db.medReminders).Put(id, r.value))
  {
    if id !in db.medReminders.rows {
      return Err(RuntimeException);
    }
    var row := WithActive(db.medReminders.rows[id], active);
    db.medReminders := db.medReminders.Put(id, row);
    r := Ok(row);
  }

  /** `markAsSent`: a sent reminder becomes inactive. */
  method MarkAsSent(db: Database, id: int) returns (r: Result<MedReminderRow>)
    requires MedRemindersLinked(db.medReminders, db.items)
    modifies db`medReminders
    ensures MedRemindersLinked(db.medReminders, db.items)
    ensures r.Err? <==> id !in old(db.medReminders.rows)
    ensures r.Err? ==> r.error == RuntimeException && db.medReminders == old(db.medReminders)
    ensures r.Ok? ==> (
      && r.value == WithActive(old(db.medReminders.rows[id]), false)
      && db.medReminders == old(db.medReminders).Put(id, r.value))
  {
    r := ToggleReminder(db, id, false);
  }

  /** `updateStatus`: the reminder is active exactly when the status is the
      string "active"; any other string, or none, deactivates it. */
  method UpdateStatus(db: Database, id: int, status: Option<string>) returns (r: Result<MedReminderRow>)
    requires MedRemindersLinked(db.medReminders, db.items)
    modifies db`medReminders
    ensures MedRemindersLinked(db.medReminders, db.items)
    ensures r.Err? <==> id !in old(db.medReminders.rows)
    ensures r.Err? ==> r.error == RuntimeException && db.medReminders == old(db.medReminders)
    ensures r.Ok? ==> (
      && r.value == WithActive(old(db.medReminders.rows[id]), status == Some("active"))
      && db.medReminders == old(db.medReminders).Put(id, r.value))
  {
    r := ToggleReminder(db, id, status == Some("active"));
  }

  /** The values `updateMedicationReminder` copies; null where the request
      leaves them out. */
  datatype ReminderChanges = ReminderChanges(
    reminderTime: Option<Minute>, reminderType: Option<TimeOfDay>, doseAmount: Option<int>, isActive: Option<bool>)

  /** The checks of `updateMedicationReminder`: the reminder exists, then
      the NOT NULL time, type and dose are given. */
  function UpdateError(medReminders: Table<MedReminderRow>, id: int, c: ReminderChanges): (e: Option<Exception>)
    ensures e.None? <==> id in medReminders.rows && c.reminderTime.Some? && c.reminderType.Some? && c.doseAmount.Some?
    ensures id !in medReminders.rows ==> e == Some(RuntimeException)
    ensures id in medReminders.rows && e.Some? ==> e.value == DataIntegrityViolationException
  {
    if id !in medReminders.rows then Some(RuntimeException)
    else if c.reminderTime.None? || c.reminderType.None? || c.doseAmount.None? then Some(DataIntegrityViolationException)
    else None
  }

  /** The reminder after the update: time, type, dose and flag are
      overwritten; the item, the patient, the period and the creation time
      stay. */
  function Overwritten(row: MedReminderRow, c: ReminderChanges): (r: MedReminderRow)
    requires c.reminderTime.Some? && c.reminderType.Some? && c.doseAmount.Some?
    ensures r.itemId == row.itemId && r.patientId == row.patientId && r.createdAt == row.createdAt
    ensures r.startDate == row.startDate && r.endDate == row.endDate
    ensures r.reminderTime == c.reminderTime.value && r.reminderType == c.reminderType.value
    ensures r.doseAmount == c.doseAmount.value && r.isActive == c.isActive
  {
    row.(reminderTime := c.reminderTime.value, reminderType := c.reminderType.value,
         doseAmount := c.doseAmount.value, isActive := c.isActive)
  }

  /** `updateMedicationReminder`. */
  method UpdateMedicationReminder(db: Database, id: int, c: ReminderChanges) returns (r: Result<MedReminderRow>)
    requires MedRemindersLinked(db.medReminders, db.items)
    modifies db`medReminders
    ensures MedRemindersLinked(db.medReminders, db.items)
    ensures r.Err? <==> old(UpdateError(db.medReminders, id, c)).Some?
    ensures r.Err? ==> r.error == old(UpdateError(db.medReminders, id, c)).value && db.medReminders == old(db.medReminders)
    ensures r.Ok? ==> (
      && r.value == Overwritten(old(db.medReminders.rows[id]), c)
      && db.medReminders == old(db.medReminders).Put(id, r.value))
  {
    var e := UpdateError(db.medReminders, id, c);
    if e.Some? {
      return Err(e.value);
    }
    var row := Overwritten(db.medReminders.rows[id], c);
    db.medReminders := db.medReminders.Put(id, row);
    r := Ok(row);
  }

  /** `deleteMedicationReminder`: `deleteById` ignores a missing id. */
  method DeleteMedicationReminder(db: Database, id: int)
    requires MedRemindersLinked(db.medReminders, db.items)
    modifies db`medReminders
    ensures MedRemindersLinked(db.medReminders, db.items)
    ensures db.medReminders == old(db.medReminders).DeleteKey(id)
    ensures id !in db.medReminders.rows
    ensures id !in old(db.medReminders.rows) ==> db.medReminders.rows == old(db.medReminders.rows)
  {
    db.medReminders := db.medReminders.DeleteKey(id);
  }

  /** A derived `findByPatientId` query; a null argument becomes `IS NULL`,
      which no row of the NOT NULL column meets. */
  function OfPatient(patientId: Option<int>): MedReminderRow -> bool {
    (m: MedReminderRow) => patientId.Some? && m.patientId == patientId.value
  }

  function OfItem(itemId: Option<int>): MedReminderRow -> bool {
    (m: MedReminderRow) => itemId.Some? && m.itemId == itemId.value
  }

  /** `findByPatientId`. */
  function FindByPatientId(medReminders: Table<MedReminderRow>, patientId: Option<int>): (r: seq<int>)
    requires medReminders.Issued()
    ensures forall k :: k in r <==> patientId.Some? && k in medReminders.rows && medReminders.rows[k].patientId == patientId.value
  {
    medReminders.Where(OfPatient(patientId))
  }

  /** `findActiveByPatientId` runs the same query, with no active filter. */
  function FindActiveByPatientId(medReminders: Table<MedReminderRow>, patientId: Option<int>): (r: seq<int>)
    requires medReminders.Issued()
    ensures forall k :: k in r <==> patientId.Some? && k in medReminders.rows && medReminders.rows[k].patientId == patientId.value
  {
    FindByPatientId(medReminders, patientId)
  }

  /** An inactive reminder of the patient is still in the "active" list. */
  lemma ActiveListKeepsInactive(medReminders: Table<MedReminderRow>, patientId: int, k: int)
    requires medReminders.Issued() && k in medReminders.rows
    requires medReminders.rows[k].patientId == patientId && medReminders.rows[k].isActive == Some(false)
    ensures k in FindActiveByPatientId(medReminders, Some(patientId))
  {
  }

  /** `findByPrescriptionItemId`. */
  function FindByPrescriptionItemId(medReminders: Table<MedReminderRow>, itemId: Option<int>): (r: seq<int>)
    requires medReminders.Issued()
    ensures forall k :: k in r <==> itemId.Some? && k in medReminders.rows && medReminders.rows[k].itemId == itemId.value
  {
    medReminders.Where(OfItem(itemId))
  }

  /** `findByReminderTime`: a placeholder that queries a null item, and so
      always answers with nothing. */
  function FindByReminderTime(medReminders: Table<MedReminderRow>, reminderTime: DateTime): (r: seq<int>)
    requires medReminders.Issued()
    ensures r == []
  {
    medReminders.WhereNothing(OfItem(None));
    FindByPrescriptionItemId(medReminders, None)
  }

  /** `findByTimeSlot`: the same placeholder. */
  function FindByTimeSlot(medReminders: Table<MedReminderRow>, timeSlot: Option<string>): (r: seq<int>)
    requires medReminders.Issued()
    ensures r == []
  {
    FindByReminderTime(medReminders, DateTime(Ymd(1970, 1, 1), 0))
  }

  /** `findRemindersToSend`: a placeholder that queries a null patient, and
      so always answers with nothing. */
  function FindRemindersToSend(medReminders: Table<MedReminderRow>, startTime: DateTime, endTime: DateTime): (r: seq<int>)
    requires medReminders.Issued()
    ensures r == []
  {
    medReminders.WhereNothing(OfPatient(None));
    FindByPatientId(medReminders, None)
  }
}
