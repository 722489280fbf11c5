/** Prescription items (PrescriptionItemServiceImpl and the PrescriptionItem
    entity).

    An item carries four optional doses, one per time of day. Its daily
    total is their sum with a missing dose counted as 0; the entity's
    derived `dailyTotal` column is the SQL sum of the four columns, which is
    NULL as soon as one of them is. A new item gets both timestamps from the
    persist hook; an update stamps `updatedAt` only when a column actually
    changes, since the update hook runs only for a dirty row. A save that
    breaks a NOT NULL column or a foreign key is a
    `DataIntegrityViolationException`, and every service method runs in one
    transaction, so a failure leaves the table as it was.
 */
module PrescriptionItems {
  import opened Wrappers
  import opened Dates
  import opened Tables
  import opened ClinicDb

  /** The field defaults of `new PrescriptionItem()`. */
  const DEFAULT_UNIT: string := "viên"
  const NO_DOSES: Doses := Doses(Some(0), Some(0), Some(0), Some(0))

  function OrZero(d: Option<int>): int {
    if d.Some? then d.value else 0
  }

  /** The entity's `calculateDailyTotal()`: the four doses, a null dose
      counting as 0. */
  function DailyTotal(d: Doses): int {
    OrZero(d.morning) + OrZero(d.noon) + OrZero(d.afternoon) + OrZero(d.evening)
  }

  predicate NonNegative(d: Doses) {
    OrZero(d.morning) >= 0 && OrZero(d.noon) >= 0 && OrZero(d.afternoon) >= 0 && OrZero(d.evening) >= 0
  }

  /** No dose is taken at any time of day. */
  predicate NoDose(d: Doses) {
    OrZero(d.morning) == 0 && OrZero(d.noon) == 0 && OrZero(d.afternoon) == 0 && OrZero(d.evening) == 0
  }

  /** With non-negative doses the total is at least each dose, and it is 0
      exactly when every dose is 0 or null. */
  lemma DailyTotalBounds(d: Doses)
    requires NonNegative(d)
    ensures DailyTotal(d) >= OrZero(d.morning) && DailyTotal(d) >= OrZero(d.noon)
    ensures DailyTotal(d) >= OrZero(d.afternoon) && DailyTotal(d) >= OrZero(d.evening)
    ensures DailyTotal(d) == 0 <==> NoDose(d)
  {
  }

  /** The service's `calculateDailyTotal`: a running total that adds each
      dose that is set. */
  method CalculateDailyTotal(d: Doses) returns (total: int)
    ensures total == DailyTotal(d)
  {
    total := 0;
    if d.morning.Some? {
      total := total + d.morning.value;
    }
    if d.noon.Some? {
      total := total + d.noon.value;
    }
    if d.afternoon.Some? {
      total := total + d.afternoon.value;
    }
    if d.evening.Some? {
      total := total + d.evening.value;
    }
  }

  /** The `@Formula` column `morning_dose + noon_dose + afternoon_dose +
      evening_dose`: NULL when a dose column is NULL, otherwise the same
      total as `calculateDailyTotal`. */
  function FormulaTotal(d: Doses): (t: Option<int>)
    ensures t.Some? <==> d.morning.Some? && d.noon.Some? && d.afternoon.Some? && d.evening.Some?
    ensures t.Some? ==> t.value == DailyTotal(d)
  {
    match (d.morning, d.noon, d.afternoon, d.evening)
    case (Some(m), Some(n), Some(a), Some(e)) => Some(m + n + a + e)
    case _ => None
  }

  /** A single null dose is enough for the derived column to disagree with
      the computed total. */
  lemma FormulaNullOnMissingDose(m: int, a: int, e: int)
    ensures FormulaTotal(Doses(Some(m), None, Some(a), Some(e))) == None
    ensures DailyTotal(Doses(Some(m), None, Some(a), Some(e))) == m + a + e
  {
  }

  /** An item as the services receive it. `prescriptionId` is null until a
      prescription is assigned. */
  datatype ItemInput = ItemInput(
    prescriptionId: Option<int>,
    medicationId: int,
    doses: Doses,
    unit: Option<string>,
    usageInstructions: Option<string>,
    specialNotes: Option<string>)

  /** `new PrescriptionItem()` with its medication set. */
  function Blank(medicationId: int): (i: ItemInput)
    ensures i.prescriptionId.None? && i.medicationId == medicationId
    ensures DailyTotal(i.doses) == 0 && FormulaTotal(i.doses) == Some(0)
    ensures i.unit == Some(DEFAULT_UNIT)
  {
    ItemInput(None, medicationId, NO_DOSES, Some(DEFAULT_UNIT), None, None)
  }

  /** An item as it is returned: its key, its stored columns and the value
      of its `dailyTotal` field. */
  datatype SavedItem = SavedItem(id: int, row: ItemRow, dailyTotal: Option<int>)

  /** What `save` demands of a new item: a prescription (NOT NULL), and both
      foreign keys resolving. */
  predicate Saveable(prescriptions: Table<PrescriptionRow>, medications: Table<MedicationRow>, input: ItemInput) {
    input.prescriptionId.Some? && input.prescriptionId.value in prescriptions.rows
    && input.medicationId in medications.rows
  }

  /** The stored row of a new item: both timestamps come from the persist
      hook. */
  function NewRow(input: ItemInput, now: DateTime): (row: ItemRow)
    requires input.prescriptionId.Some?
    ensures row.prescriptionId == input.prescriptionId.value && row.medicationId == input.medicationId
    ensures row.doses == input.doses && row.unit == input.unit
    ensures row.usageInstructions == input.usageInstructions && row.specialNotes == input.specialNotes
    ensures row.createdAt == now && row.updatedAt == now
  {
    ItemRow(input.prescriptionId.value, input.medicationId, input.doses, input.unit,
            input.usageInstructions, input.specialNotes, now, now)
  }

  predicate AllAssigned(inputs: seq<ItemInput>) {
    forall i :: 0 <= i < |inputs| ==> inputs[i].prescriptionId.Some?
  }

  function NewRows(inputs: seq<ItemInput>, now: DateTime): (rows: seq<ItemRow>)
    requires AllAssigned(inputs)
    ensures |rows| == |inputs|
    ensures forall i :: 0 <= i < |inputs| ==> rows[i] == NewRow(inputs[i], now)
  {
    seq(|inputs|, i requires 0 <= i < |inputs| && AllAssigned(inputs) => NewRow(inputs[i], now))
  }

  /** `createPrescriptionItem`, with `now` for the persist hook's clock. The
      returned item carries the total computed before the save. */
  method CreatePrescriptionItem(db: Database, input: ItemInput, now: DateTime) returns (r: Result<SavedItem>)
    requires db.items.Issued() && ItemsLinked(db.items, db.prescriptions)
    modifies db`items
    ensures db.items.Issued() && ItemsLinked(db.items, db.prescriptions)
    ensures r.Err? <==> !Saveable(db.prescriptions, db.medications, input)
    ensures r.Err? ==> r.error == DataIntegrityViolationException && db.items == old(db.items)
    ensures r.Ok? ==> (
      && r.value == SavedItem(old(db.items.next), NewRow(input, now), Some(DailyTotal(input.doses)))
      && db.items == old(db.items).Insert(NewRow(input, now)))
  {
    var total := CalculateDailyTotal(input.doses);
    if !Saveable(db.prescriptions, db.medications, input) {
      return Err(DataIntegrityViolationException);
    }
    var row := NewRow(input, now);
    r := Ok(SavedItem(db.items.next, row, Some(total)));
    db.items := db.items.Insert(row);
  }

  /** `createPrescriptionItems`: the items are saved one after another, in
      input order; the first one that cannot be saved rolls back the
      others. */
  method CreatePrescriptionItems(db: Database, inputs: seq<ItemInput>, now: DateTime) returns (r: Result<seq<SavedItem>>)
    requires db.items.Issued() && ItemsLinked(db.items, db.prescriptions)
    modifies db`items
    ensures db.items.Issued() && ItemsLinked(db.items, db.prescriptions)
    ensures r.Err? <==> exists i :: 0 <= i < |inputs| && !Saveable(db.prescriptions, db.medications, inputs[i])
    ensures r.Err? ==> r.error == DataIntegrityViolationException && db.items == old(db.items)
    ensures r.Ok? ==> (
      && AllAssigned(inputs)
      && |r.value| == |inputs|
      && (forall i :: 0 <= i < |inputs| ==>
            r.value[i] == SavedItem(old(db.items.next) + i, NewRow(inputs[i], now), Some(DailyTotal(inputs[i].doses))))
      && db.items == old(db.items).InsertAll(NewRows(inputs, now)))
  {
    var before := db.items;
    var saved: seq<SavedItem> := [];
    var i := 0;
    assert inputs[..0] == [];
    while i < |inputs|
      invariant 0 <= i <= |inputs|
      invariant SavedSoFar(before, db.prescriptions, db.medications, inputs, i, saved, db.items, now)
    {
      var current := db.items;
      var s := CreatePrescriptionItem(db, inputs[i], now);
      if s.Err? {
        db.items := before;
        return Err(s.error);
      }
      SavedOneMore(before, db.prescriptions, db.medications, inputs, i, saved, current, now);
      saved := saved + [s.value];
      i := i + 1;
    }
    assert inputs[..i] == inputs;
    r := Ok(saved);
  }

  /** The state of `createPrescriptionItems` after its first `i` items:
      those were saveable, were returned in order, and were inserted. */
  predicate SavedSoFar(before: Table<ItemRow>, prescriptions: Table<PrescriptionRow>, medications: Table<MedicationRow>,
                       inputs: seq<ItemInput>, i: nat, saved: seq<SavedItem>, items: Table<ItemRow>, now: DateTime)
  {
    && i <= |inputs| && |saved| == i
    && (forall j :: 0 <= j < i ==> Saveable(prescriptions, medications, inputs[j]))
    && (forall j :: 0 <= j < i ==>
          saved[j] == SavedItem(before.next + j, NewRow(inputs[j], now), Some(DailyTotal(inputs[j].doses))))
    && AllAssigned(inputs[..i])
    && items == before.InsertAll(NewRows(inputs[..i], now))
    && items.Issued() && ItemsLinked(items, prescriptions)
  }

  /** Saving item `i` extends the state by that item. */
  lemma SavedOneMore(before: Table<ItemRow>, prescriptions: Table<PrescriptionRow>, medications: Table<MedicationRow>,
                     inputs: seq<ItemInput>, i: nat, saved: seq<SavedItem>, items: Table<ItemRow>, now: DateTime)
    requires i < |inputs| && SavedSoFar(before, prescriptions, medications, inputs, i, saved, items, now)
    requires Saveable(prescriptions, medications, inputs[i])
    requires items.Insert(NewRow(inputs[i], now)).Issued()
    requires ItemsLinked(items.Insert(NewRow(inputs[i], now)), prescriptions)
    ensures SavedSoFar(before, prescriptions, medications, inputs, i + 1,
                       saved + [SavedItem(items.next, NewRow(inputs[i], now), Some(DailyTotal(inputs[i].doses)))],
                       items.Insert(NewRow(inputs[i], now)), now)
  {
    assert inputs[..i + 1] == inputs[..i] + [inputs[i]];
    assert NewRows(inputs[..i + 1], now) == NewRows(inputs[..i], now) + [NewRow(inputs[i], now)];
    before.InsertAllSnoc(NewRows(inputs[..i], now), NewRow(inputs[i], now));
    assert items.next == before.next + i;
  }

  /** The row after `updatePrescriptionItem` copies the medication, the four
      doses, the instructions and the notes: when nothing differs the row
      is not dirty and keeps its `updatedAt`. */
  function Revised(row: ItemRow, input: ItemInput, now: DateTime): (r: ItemRow)
    ensures r.medicationId == input.medicationId && r.doses == input.doses
    ensures r.usageInstructions == input.usageInstructions && r.specialNotes == input.specialNotes
    ensures r.prescriptionId == row.prescriptionId && r.unit == row.unit && r.createdAt == row.createdAt
    ensures r.updatedAt == row.updatedAt || r.updatedAt == now
    ensures r == row <==> (
      && row.medicationId == input.medicationId && row.doses == input.doses
      && row.usageInstructions == input.usageInstructions && row.specialNotes == input.specialNotes)
  {
    var copied := row.(medicationId := input.medicationId, doses := input.doses,
                       usageInstructions := input.usageInstructions, specialNotes := input.specialNotes);
    if copied == row then row else copied.(updatedAt := now)
  }

  /** Repeating an update with the same values changes nothing more, not
      even `updatedAt`. */
  lemma RevisedIdempotent(row: ItemRow, input: ItemInput, t1: DateTime, t2: DateTime)
    ensures Revised(Revised(row, input, t1), input, t2) == Revised(row, input, t1)
  {
  }

  /** The checks of `updatePrescriptionItem`, in order: the item exists,
      then the new medication resolves. */
  function UpdateError(items: Table<ItemRow>, medications: Table<MedicationRow>, id: int, input: ItemInput)
    : (e: Option<Exception>)
    ensures e.None? <==> id in items.rows && input.medicationId in medications.rows
    ensures id !in items.rows ==> e == Some(RuntimeException)
    ensures id in items.rows && e.Some? ==> e.value == DataIntegrityViolationException
  {
    if id !in items.rows then Some(RuntimeException)
    else if input.medicationId !in medications.rows then Some(DataIntegrityViolationException)
    else None
  }

  /** `updatePrescriptionItem`, with `now` for the update hook's clock. The
      returned total is recomputed from the new doses. */
  method UpdatePrescriptionItem(db: Database, id: int, input: ItemInput, now: DateTime) returns (r: Result<SavedItem>)
    requires db.items.Issued() && ItemsLinked(db.items, db.prescriptions)
    modifies db`items
    ensures db.items.Issued() && ItemsLinked(db.items, db.prescriptions)
    ensures r.Err? <==> old(UpdateError(db.items, db.medications, id, input)).Some?
    ensures r.Err? ==> r.error == old(UpdateError(db.items, db.medications, id, input)).value && db.items == old(db.items)
    ensures r.Ok? ==> (
      && r.value == SavedItem(id, Revised(old(db.items.rows[id]), input, now), Some(DailyTotal(input.doses)))
      && db.items == old(db.items).Put(id, Revised(old(db.items.rows[id]), input, now)))
  {
    var e := UpdateError(db.items, db.medications, id, input);
    if e.Some? {
      return Err(e.value);
    }
    var row := Revised(db.items.rows[id], input, now);
    var total := CalculateDailyTotal(row.doses);
    db.items := db.items.Put(id, row);
    r := Ok(SavedItem(id, row, Some(total)));
  }

  /** `updateStatus`: the item has no status column, so the save changes
      nothing; the answer is the loaded item with its derived total. */
  function UpdateItemStatus(items: Table<ItemRow>, id: int, status: Option<string>): (r: Result<SavedItem>)
    ensures r.Err? <==> id !in items.rows
    ensures r.Err? ==> r.error == RuntimeException
    ensures r.Ok? ==> r.value.id == id && r.value.row == items.rows[id]
    ensures r.Ok? ==> r.value.dailyTotal.Some? ==> r.value.dailyTotal.value == DailyTotal(items.rows[id].doses)
  {
    if id !in items.rows then Err(RuntimeException)
    else Ok(SavedItem(id, items.rows[id], FormulaTotal(items.rows[id].doses)))
  }

  /** The medication reminders of one item. */
  function RemindersOf(id: int): MedReminderRow -> bool {
    (m: MedReminderRow) => m.itemId == id
  }

  /** `deletePrescriptionItem`: the item goes with its medication reminders
      (cascade); a missing id changes nothing. */
  method DeletePrescriptionItem(db: Database, id: int)
    requires db.items.Issued() && ItemsLinked(db.items, db.prescriptions)
    requires MedRemindersLinked(db.medReminders, db.items)
    modifies db`items, db`medReminders
    ensures db.items.Issued() && ItemsLinked(db.items, db.prescriptions)
    ensures MedRemindersLinked(db.medReminders, db.items)
    ensures db.items == old(db.items).DeleteKey(id)
    ensures db.medReminders == old(db.medReminders).Delete(RemindersOf(id))
    ensures id !in old(db.items.rows) ==> db.items == old(db.items) && db.medReminders == old(db.medReminders)
  {
    if id !in db.items.rows {
      assert db.items.DeleteKey(id).rows == db.items.rows;
      assert forall k :: k in db.medReminders.rows ==> !RemindersOf(id)(db.medReminders.rows[k]);
      assert db.medReminders.Delete(RemindersOf(id)).rows == db.medReminders.rows;
    }
    db.medReminders := db.medReminders.Delete(RemindersOf(id));
    db.items := db.items.DeleteKey(id);
  }

  /** The items of one prescription. */
  function OfPrescription(prescriptionId: int): ItemRow -> bool {
    (i: ItemRow) => i.prescriptionId == prescriptionId
  }

  /** `findByPrescriptionId`: the prescription's items, in key order. */
  function FindByPrescriptionId(items: Table<ItemRow>, prescriptionId: int): (r: seq<int>)
    requires items.Issued()
    ensures forall k :: k in r <==> k in items.rows && items.rows[k].prescriptionId == prescriptionId
    ensures forall i, j :: 0 <= i < j < |r| ==> r[i] < r[j]
  {
    items.Where(OfPrescription(prescriptionId))
  }
}
