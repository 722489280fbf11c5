/** Prescriptions (PrescriptionServiceImplNew).

    A prescription header belongs to a medical record, a patient and a
    doctor, and optionally to a treatment protocol; its items and their
    medication reminders hang off it. Every service method runs in one
    transaction, so a failure leaves every table as it was. A save whose
    NOT NULL column is null or whose foreign key does not resolve fails
    with `DataIntegrityViolationException`.

    Deleting a prescription cascades to its items, to their medication
    reminders, and to the general reminders that name the prescription.
 */
module Prescriptions {
  import opened Wrappers
  import opened Dates
  import opened Tables
  import opened ClinicDb
  import Items = PrescriptionItems
  import Plans = MedicationReminders
  import Records = MedicalRecords

  /** The status a new `Prescription` object starts with. */
  const DEFAULT_STATUS := "Đã kê"

  /** The fields of a `Prescription` as a caller fills them in; null where
      left out. `createdAt` is not here: the persist hook overwrites it. */
  datatype PrescriptionInput = PrescriptionInput(
    medicalRecordId: Option<int>,
    patientId: Option<int>,
    doctorId: Option<int>,
    protocolId: Option<int>,
    treatmentStartDate: Option<Date>,
    treatmentEndDate: Option<Date>,
    doctorNotes: Option<string>,
    protocolNotes: Option<string>,
    status: Option<string>)

  /** `new Prescription()`. */
  function Blank(): (p: PrescriptionInput)
    ensures p.status == Some(DEFAULT_STATUS)
    ensures p.medicalRecordId.None? && p.patientId.None? && p.doctorId.None? && p.protocolId.None?
    ensures p.treatmentStartDate.None? && p.treatmentEndDate.None?
  {
    PrescriptionInput(None, None, None, None, None, None, None, None, Some(DEFAULT_STATUS))
  }

  /** What the save of a new header demands: the NOT NULL record, patient,
      doctor and end date, with every foreign key resolving. The start date
      is never null by then. */
  predicate HeaderSaveable(records: Table<MedicalRecordRow>, users: Table<UserRow>, protocols: Table<ProtocolRow>,
                           input: PrescriptionInput) {
    && input.medicalRecordId.Some? && input.medicalRecordId.value in records.rows
    && input.patientId.Some? && input.patientId.value in users.rows
    && input.doctorId.Some? && input.doctorId.value in users.rows
    && (input.protocolId.Some? ==> input.protocolId.value in protocols.rows)
    && input.treatmentEndDate.Some?
  }

  /** The stored header: a missing start date becomes `today`, and the
      creation time is the persist hook's `now`. */
  function NewPrescription(input: PrescriptionInput, today: Date, now: DateTime): (row: PrescriptionRow)
    requires input.medicalRecordId.Some? && input.patientId.Some? && input.doctorId.Some?
    requires input.treatmentEndDate.Some?
    ensures row.medicalRecordId == input.medicalRecordId.value && row.patientId == input.patientId.value
    ensures row.doctorId == input.doctorId.value && row.protocolId == input.protocolId
    ensures row.treatmentStartDate == (if input.treatmentStartDate.Some? then input.treatmentStartDate.value else today)
    ensures row.treatmentEndDate == input.treatmentEndDate.value
    ensures row.doctorNotes == input.doctorNotes && row.protocolNotes == input.protocolNotes
    ensures row.status == input.status && row.createdAt == now
  {
    var start := if input.treatmentStartDate.Some? then input.treatmentStartDate.value else today;
    PrescriptionRow(input.medicalRecordId.value, input.patientId.value, input.doctorId.value, input.protocolId,
                    start, input.treatmentEndDate.value, input.doctorNotes, input.protocolNotes, input.status, now)
  }

  /** The tables a prescription change touches, with their links. */
  predicate Linked(db: Database)
    reads db
  {
    && db.prescriptions.Issued() && db.items.Issued() && db.medReminders.Issued()
    && Records.CareLinked(db.records, db.prescriptions, db.items, db.medReminders, db.reminders, db.recordLabs, db.labResults)
  }

  /** A new header keeps every link: nothing named a key that was not yet
      handed out. */
  lemma InsertKeepsLinks(db: Database, row: PrescriptionRow)
    requires Linked(db) && row.medicalRecordId in db.records.rows
    ensures Records.CareLinked(db.records, db.prescriptions.Insert(row), db.items, db.medReminders, db.reminders,
                               db.recordLabs, db.labResults)
  {
  }

  /** `createPrescription`, with `today` and `now` for the clock. The result
      is the new header's key. */
  method CreatePrescription(db: Database, input: PrescriptionInput, today: Date, now: DateTime) returns (r: Result<int>)
    requires Linked(db)
    modifies db`prescriptions
    ensures Linked(db)
    ensures r.Err? <==> !HeaderSaveable(db.records, db.users, db.protocols, input)
    ensures r.Err? ==> r.error == DataIntegrityViolationException && db.prescriptions == old(db.prescriptions)
    ensures r.Ok? ==> (
      && r.value == old(db.prescriptions.next)
      && db.prescriptions == old(db.prescriptions).Insert(NewPrescription(input, today, now)))
  {
    if !HeaderSaveable(db.records, db.users, db.protocols, input) {
      return Err(DataIntegrityViolationException);
    }
    var row := NewPrescription(input, today, now);
    InsertKeepsLinks(db, row);
    r := Ok(db.prescriptions.next);
    db.prescriptions := db.prescriptions.Insert(row);
  }

  /** The items as `createFullPrescription` hands them on: each one set to
      the prescription `id`. */
  method StampItems(inputs: seq<Items.ItemInput>, id: int) returns (r: seq<Items.ItemInput>)
    ensures |r| == |inputs| && Items.AllAssigned(r)
    ensures forall i :: 0 <= i < |inputs| ==> r[i] == inputs[i].(prescriptionId := Some(id))
  {
    r := [];
    var i := 0;
    while i < |inputs|
      invariant 0 <= i <= |inputs| && |r| == i
      invariant forall j :: 0 <= j < i ==> r[j] == inputs[j].(prescriptionId := Some(id))
    {
      r := r + [inputs[i].(prescriptionId := Some(id))];
      i := i + 1;
    }
  }

  /** Some item names a medication that is not stored. */
  predicate UnknownMedication(medications: Table<MedicationRow>, inputs: seq<Items.ItemInput>) {
    exists i :: 0 <= i < |inputs| && inputs[i].medicationId !in medications.rows
  }

  /** Items set to a stored prescription fail their save exactly when a
      medication is unknown. */
  lemma StampedSaveable(prescriptions: Table<PrescriptionRow>, medications: Table<MedicationRow>,
                        inputs: seq<Items.ItemInput>, stamped: seq<Items.ItemInput>, id: int)
    requires id in prescriptions.rows && |stamped| == |inputs|
    requires forall i :: 0 <= i < |inputs| ==> stamped[i] == inputs[i].(prescriptionId := Some(id))
    ensures (exists i :: 0 <= i < |stamped| && !Items.Saveable(prescriptions, medications, stamped[i]))
      <==> UnknownMedication(medications, inputs)
  {
    if UnknownMedication(medications, inputs) {
      var i :| 0 <= i < |inputs| && inputs[i].medicationId !in medications.rows;
      assert !Items.Saveable(prescriptions, medications, stamped[i]);
    }
  }

  /** Replacing the items and the medication reminders by tables that are
      linked again keeps every other link. */
  lemma ReplaceItemsKeepsLinks(records: Table<MedicalRecordRow>, prescriptions: Table<PrescriptionRow>,
                               items: Table<ItemRow>, medReminders: Table<MedReminderRow>,
                               reminders: Table<ReminderRow>, recordLabs: Table<RecordLabRow>, results: Table<LabResultRow>,
                               items': Table<ItemRow>, medReminders': Table<MedReminderRow>)
    requires Records.CareLinked(records, prescriptions, items, medReminders, reminders, recordLabs, results)
    requires ItemsLinked(items', prescriptions) && MedRemindersLinked(medReminders', items')
    ensures Records.CareLinked(records, prescriptions, items', medReminders', reminders, recordLabs, results)
  {
  }

  /** The items saved for one prescription plan reminders for the patient of
      that prescription alone, and every one of them is found. */
  lemma FreshItemsPlan(items: Table<ItemRow>, prescriptions: Table<PrescriptionRow>, users: Table<UserRow>,
                       rows: seq<ItemRow>, id: int, now: DateTime)
    requires items.Issued() && ItemsLinked(items.InsertAll(rows), prescriptions)
    requires id in prescriptions.rows && prescriptions.rows[id].patientId in users.rows
    requires forall j :: 0 <= j < |rows| ==> rows[j].prescriptionId == id
    ensures Plans.Known(items.InsertAll(rows), Plans.KeysFrom(items.next, |rows|))
    ensures Plans.PatientsKnown(users, Plans.Plan(items.InsertAll(rows), prescriptions, Plans.KeysFrom(items.next, |rows|), now))
  {
    var all := items.InsertAll(rows);
    var keys := Plans.KeysFrom(items.next, |rows|);
    assert forall j :: 0 <= j < |rows| ==> keys[j] in all.rows && all.rows[keys[j]] == rows[j];
    var plan := Plans.Plan(all, prescriptions, keys, now);
    forall k | 0 <= k < |plan| ensures plan[k].patientId in users.rows {
      Plans.PlanAttached(all, prescriptions, keys, now, k);
      var j :| 0 <= j < |keys| && keys[j] == plan[k].itemId;
      assert all.rows[plan[k].itemId].prescriptionId == id;
    }
  }

  /** The rows `createFullPrescription` saves for `inputs` under header `id`. */
  function StampedRows(inputs: seq<Items.ItemInput>, id: int, now: DateTime): (r: seq<ItemRow>)
    ensures |r| == |inputs|
    ensures forall i :: 0 <= i < |inputs| ==>
      r[i].prescriptionId == id && r[i] == Items.NewRow(inputs[i].(prescriptionId := Some(id)), now)
    decreases |inputs|
  {
    if inputs == [] then []
    else [Items.NewRow(inputs[0].(prescriptionId := Some(id)), now)] + StampedRows(inputs[1..], id, now)
  }

  /** The second half of `createFullPrescription`: every item is set to
      header `id` and saved, then the reminders of the saved items are
      created. An unknown medication saves nothing. */
  method SaveItemsWithReminders(db: Database, inputs: seq<Items.ItemInput>, id: int, now: DateTime)
    returns (r: Result<seq<int>>)
    requires db.items.Issued() && db.medReminders.Issued()
    requires ItemsLinked(db.items, db.prescriptions) && MedRemindersLinked(db.medReminders, db.items)
    requires id in db.prescriptions.rows && db.prescriptions.rows[id].patientId in db.users.rows
    modifies db`items, db`medReminders
    ensures db.items.Issued() && db.medReminders.Issued()
    ensures ItemsLinked(db.items, db.prescriptions) && MedRemindersLinked(db.medReminders, db.items)
    ensures r.Err? <==> UnknownMedication(db.medications, inputs)
    ensures r.Err? ==> (
      && r.error == DataIntegrityViolationException
      && db.items == old(db.items) && db.medReminders == old(db.medReminders))
    ensures r.Ok? ==> (
      && db.items == old(db.items).InsertAll(StampedRows(inputs, id, now))
      && db.medReminders == old(db.medReminders).InsertAll(
           Plans.Plan(db.items, db.prescriptions, Plans.KeysFrom(old(db.items.next), |inputs|), now)))
  {
    var stamped := StampItems(inputs, id);
    StampedSaveable(db.prescriptions, db.medications, inputs, stamped, id);
    var itemsBefore := db.items;
    var saved := Items.CreatePrescriptionItems(db, stamped, now);
    if saved.Err? {
      return Err(saved.error);
    }
    var rows := Items.NewRows(stamped, now);
    assert rows == StampedRows(inputs, id, now);
    // the keys of the saved items, in order
    var ids := Plans.KeysFrom(itemsBefore.next, |inputs|);
    FreshItemsPlan(itemsBefore, db.prescriptions, db.users, rows, id, now);
    r := Plans.CreateRemindersFromPrescriptionItems(db, ids, now);
    if r.Err? {
      assert false;
    }
  }

  /** `createFullPrescription`, with `today` and `now` for the clock: the
      header is saved, every item is set to it and saved, and the reminders
      of the saved items are created. The result is the header's key; on
      an error nothing is saved. */
  method CreateFullPrescription(db: Database, input: PrescriptionInput, inputs: seq<Items.ItemInput>,
                                today: Date, now: DateTime) returns (r: Result<int>)
    requires Linked(db)
    modifies db`prescriptions, db`items, db`medReminders
    ensures Linked(db)
    ensures r.Err? <==>
      !HeaderSaveable(db.records, db.users, db.protocols, input) || UnknownMedication(db.medications, inputs)
    ensures r.Err? ==> (
      && r.error == DataIntegrityViolationException
      && db.prescriptions == old(db.prescriptions) && db.items == old(db.items)
      && db.medReminders == old(db.medReminders))
    ensures r.Ok? ==> (
      && r.value == old(db.prescriptions.next)
      && db.prescriptions == old(db.prescriptions).Insert(NewPrescription(input, today, now))
      && db.items == old(db.items).InsertAll(StampedRows(inputs, r.value, now))
      && db.medReminders == old(db.medReminders).InsertAll(
           Plans.Plan(db.items, db.prescriptions, Plans.KeysFrom(old(db.items.next), |inputs|), now)))
  {
    var rxBefore := db.prescriptions;
    var header := CreatePrescription(db, input, today, now);
    if header.Err? {
      return Err(header.error);
    }
    ghost var itemsBefore, remindersBefore := db.items, db.medReminders;
    var saved := SaveItemsWithReminders(db, inputs, header.value, now);
    if saved.Err? {
      db.prescriptions := rxBefore;
      assert db.prescriptions == old(db.prescriptions) && db.items == old(db.items)
        && db.medReminders == old(db.medReminders);
      return Err(saved.error);
    }
    ReplaceItemsKeepsLinks(db.records, db.prescriptions, itemsBefore, remindersBefore, db.reminders, db.recordLabs,
                           db.labResults, db.items, db.medReminders);
    r := Ok(header.value);
  }

  /** `createFullPrescription` as written: the checks of the header and of
      the items, then the reminder planning as written over the items just
      saved under header `id`, none of which has its prescription loaded. */
  function CreateFullErrorAsWritten(records: Table<MedicalRecordRow>, users: Table<UserRow>, protocols: Table<ProtocolRow>,
                                    medications: Table<MedicationRow>, items: Table<ItemRow>, input: PrescriptionInput,
                                    inputs: seq<Items.ItemInput>, id: int, now: DateTime): (e: Option<Exception>)
    ensures !HeaderSaveable(records, users, protocols, input) || UnknownMedication(medications, inputs) ==>
      e == Some(DataIntegrityViolationException)
  {
    if !HeaderSaveable(records, users, protocols, input) || UnknownMedication(medications, inputs) then
      Some(DataIntegrityViolationException)
    else
      var keys := Plans.KeysFrom(items.next, |inputs|);
      Plans.PlanErrorAsWritten(items.InsertAll(StampedRows(inputs, id, now)), keys, set i | 0 <= i < |keys| :: keys[i])
  }

  /** As written, `createFullPrescription` rolls back with a
      NullPointerException as soon as one item has a due dose, where
      `CreateFullPrescription` saves that item and its reminders. */
  lemma CreateFullFailsOnDueDose(records: Table<MedicalRecordRow>, users: Table<UserRow>, protocols: Table<ProtocolRow>,
                                 medications: Table<MedicationRow>, items: Table<ItemRow>, input: PrescriptionInput,
                                 inputs: seq<Items.ItemInput>, id: int, now: DateTime, j: nat)
    requires HeaderSaveable(records, users, protocols, input) && !UnknownMedication(medications, inputs)
    requires j < |inputs| && Plans.AnyDue(inputs[j].doses)
    ensures CreateFullErrorAsWritten(records, users, protocols, medications, items, input, inputs, id, now)
      == Some(NullPointerException)
  {
    var rows := StampedRows(inputs, id, now);
    var saved := items.InsertAll(rows);
    var keys := Plans.KeysFrom(items.next, |inputs|);
    var newOnes := set i | 0 <= i < |keys| :: keys[i];
    forall i | 0 <= i < |keys|
      ensures keys[i] in saved.rows
    {
      assert keys[i] == items.next + i;
      assert keys[i] in Placed(rows, items.next);
    }
    assert keys[j] in newOnes;
    assert saved.rows[keys[j]] == rows[j];
    Plans.LookupAsWrittenFresh(saved, keys, newOnes, j);
  }

  /** The changes `updatePrescription` copies; null where left out. */
  function Amended(row: PrescriptionRow, c: PrescriptionInput): (r: PrescriptionRow)
    ensures r.protocolId == (if c.protocolId.Some? then c.protocolId else row.protocolId)
    ensures r.doctorId == (if c.doctorId.Some? then c.doctorId.value else row.doctorId)
    ensures r.treatmentStartDate == (if c.treatmentStartDate.Some? then c.treatmentStartDate.value else row.treatmentStartDate)
    ensures r.treatmentEndDate == (if c.treatmentEndDate.Some? then c.treatmentEndDate.value else row.treatmentEndDate)
    ensures r.doctorNotes == (if c.doctorNotes.Some? then c.doctorNotes else row.doctorNotes)
    ensures r.status == (if c.status.Some? then c.status else row.status)
    ensures r.medicalRecordId == row.medicalRecordId && r.patientId == row.patientId
    ensures r.protocolNotes == row.protocolNotes && r.createdAt == row.createdAt
  {
    var r1 := if c.protocolId.Some? then row.(protocolId := c.protocolId) else row;
    var r2 := if c.doctorId.Some? then r1.(doctorId := c.doctorId.value) else r1;
    var r3 := if c.treatmentStartDate.Some? then r2.(treatmentStartDate := c.treatmentStartDate.value) else r2;
    var r4 := if c.treatmentEndDate.Some? then r3.(treatmentEndDate := c.treatmentEndDate.value) else r3;
    var r5 := if c.doctorNotes.Some? then r4.(doctorNotes := c.doctorNotes) else r4;
    if c.status.Some? then r5.(status := c.status) else r5
  }

  /** A request that leaves everything out changes nothing. */
  lemma AmendedWithNothing(row: PrescriptionRow)
    ensures Amended(row, PrescriptionInput(None, None, None, None, None, None, None, None, None)) == row
  {
  }

  /** Applying the same request twice is applying it once. */
  lemma AmendedIdempotent(row: PrescriptionRow, c: PrescriptionInput)
    ensures Amended(Amended(row, c), c) == Amended(row, c)
  {
  }

  /** The checks of `updatePrescription`: the header exists, then the new
      doctor and protocol resolve. */
  function UpdateError(prescriptions: Table<PrescriptionRow>, users: Table<UserRow>, protocols: Table<ProtocolRow>,
                       id: int, c: PrescriptionInput): (e: Option<Exception>)
    ensures id !in prescriptions.rows <==> e == Some(RuntimeException)
    ensures e.None? <==> (
      && id in prescriptions.rows
      && (c.doctorId.Some? ==> c.doctorId.value in users.rows)
      && (c.protocolId.Some? ==> c.protocolId.value in protocols.rows))
    ensures e.Some? ==> e.value == RuntimeException || e.value == DataIntegrityViolationException
  {
    if id !in prescriptions.rows then Some(RuntimeException)
    else if c.doctorId.Some? && c.doctorId.value !in users.rows then Some(DataIntegrityViolationException)
    else if c.protocolId.Some? && c.protocolId.value !in protocols.rows then Some(DataIntegrityViolationException)
    else None
  }

  /** `updatePrescription`: only the non-null fields of the request are
      copied. */
  method UpdatePrescription(db: Database, id: int, c: PrescriptionInput) returns (r: Result<PrescriptionRow>)
    requires Linked(db)
    modifies db`prescriptions
    ensures Linked(db)
    ensures r.Err? <==> old(UpdateError(db.prescriptions, db.users, db.protocols, id, c)).Some?
    ensures r.Err? ==> (
      && r.error == old(UpdateError(db.prescriptions, db.users, db.protocols, id, c)).value
      && db.prescriptions == old(db.prescriptions))
    ensures r.Ok? ==> (
      && r.value == Amended(old(db.prescriptions.rows[id]), c)
      && db.prescriptions == old(db.prescriptions).Put(id, r.value))
  {
    var e := UpdateError(db.prescriptions, db.users, db.protocols, id, c);
    if e.Some? {
      return Err(e.value);
    }
    var row := Amended(db.prescriptions.rows[id], c);
    db.prescriptions := db.prescriptions.Put(id, row);
    r := Ok(row);
  }

  /** The general reminders that name a prescription. */
  function OfPrescriptionReminder(id: int): ReminderRow -> bool {
    (r: ReminderRow) => r.prescriptionId == Some(id)
  }

  /** The cascade of a prescription's delete leaves every link in place. */
  lemma DeleteKeepsLinks(db: Database, id: int)
    requires Linked(db)
    ensures var its := Records.ItemsOf(db.items, {id});
      Records.CareLinked(db.records, db.prescriptions.DeleteKey(id), db.items.Delete(Records.InPrescriptions({id})),
                         db.medReminders.Delete(Records.ForItems(its)), db.reminders.Delete(OfPrescriptionReminder(id)),
                         db.recordLabs, db.labResults)
  {
  }

  /** `deletePrescription`: an unknown key is an error; otherwise the
      header goes with everything that cascades from it. */
  method DeletePrescription(db: Database, id: int) returns (r: Result<()>)
    requires Linked(db)
    modifies db`prescriptions, db`items, db`medReminders, db`reminders
    ensures Linked(db)
    ensures r.Err? <==> id !in old(db.prescriptions.rows)
    ensures r.Err? ==> (
      && r.error == RuntimeException
      && db.prescriptions == old(db.prescriptions) && db.items == old(db.items)
      && db.medReminders == old(db.medReminders) && db.reminders == old(db.reminders))
    ensures r.Ok? ==> (
      && db.prescriptions == old(db.prescriptions).DeleteKey(id)
      && db.items == old(db.items).Delete(Records.InPrescriptions({id}))
      && db.medReminders == old(db.medReminders).Delete(Records.ForItems(Records.ItemsOf(old(db.items), {id})))
      && db.reminders == old(db.reminders).Delete(OfPrescriptionReminder(id)))
  {
    if id !in db.prescriptions.rows {
      return Err(RuntimeException);
    }
    var its := Records.ItemsOf(db.items, {id});
    DeleteKeepsLinks(db, id);
    db.medReminders := db.medReminders.Delete(Records.ForItems(its));
    db.items := db.items.Delete(Records.InPrescriptions({id}));
    db.reminders := db.reminders.Delete(OfPrescriptionReminder(id));
    db.prescriptions := db.prescriptions.DeleteKey(id);
    r := Ok(());
  }

  /** After a delete no item, medication reminder or reminder refers to the
      prescription. */
  lemma DeleteLeavesNoTrace(db: Database, id: int)
    requires Linked(db)
    ensures var items := db.items.Delete(Records.InPrescriptions({id}));
      && (forall k :: k in items.rows ==> items.rows[k].prescriptionId != id)
      && (forall k :: k in db.reminders.Delete(OfPrescriptionReminder(id)).rows ==>
            db.reminders.Delete(OfPrescriptionReminder(id)).rows[k].prescriptionId != Some(id))
  {
  }

  /** The checks of `addPrescriptionItem`: the prescription exists, the
      item's medication resolves, and, when the item has a due dose, the
      patient its reminders name is stored. */
  function AddError(prescriptions: Table<PrescriptionRow>, medications: Table<MedicationRow>, users: Table<UserRow>,
                    prescriptionId: int, input: Items.ItemInput): (e: Option<Exception>)
    ensures prescriptionId !in prescriptions.rows <==> e == Some(RuntimeException)
    ensures e.None? <==> (
      && prescriptionId in prescriptions.rows
      && input.medicationId in medications.rows
      && (Plans.AnyDue(input.doses) ==> prescriptions.rows[prescriptionId].patientId in users.rows))
    ensures e.Some? ==> e.value == RuntimeException || e.value == DataIntegrityViolationException
  {
    if prescriptionId !in prescriptions.rows then Some(RuntimeException)
    else if input.medicationId !in medications.rows then Some(DataIntegrityViolationException)
    else if Plans.AnyDue(input.doses) && prescriptions.rows[prescriptionId].patientId !in users.rows
    then Some(DataIntegrityViolationException)
    else None
  }

  /** The plan of one stored item is that item's own reminders. */
  lemma SingleItemPlan(items: Table<ItemRow>, prescriptions: Table<PrescriptionRow>, users: Table<UserRow>,
                       k: int, now: DateTime)
    requires ItemsLinked(items, prescriptions) && k in items.rows
    ensures Plans.Known(items, [k])
    ensures Plans.Plan(items, prescriptions, [k], now) ==
      Plans.PlannedFor(k, items.rows[k], prescriptions.rows[items.rows[k].prescriptionId], now)
    ensures Plans.PatientsKnown(users, Plans.Plan(items, prescriptions, [k], now)) <==>
      (Plans.AnyDue(items.rows[k].doses) ==> prescriptions.rows[items.rows[k].prescriptionId].patientId in users.rows)
  {
    var rx := prescriptions.rows[items.rows[k].prescriptionId];
    assert [k][..0] == [];
    var plan := Plans.PlannedFor(k, items.rows[k], rx, now);
    assert Plans.Plan(items, prescriptions, [k], now) == [] + plan;
    assert [] + plan == plan;
    PlannedPatientsKnown(users, k, items.rows[k], rx, now);
  }

  /** The reminders of one item name a stored patient exactly when the
      item has no due dose or its prescription's patient is stored. */
  lemma PlannedPatientsKnown(users: Table<UserRow>, k: int, item: ItemRow, rx: PrescriptionRow, now: DateTime)
    ensures Plans.PatientsKnown(users, Plans.PlannedFor(k, item, rx, now)) <==>
      (Plans.AnyDue(item.doses) ==> rx.patientId in users.rows)
  {
    Plans.PlannedForPatient(k, item, rx, now);
    var plan := Plans.PlannedFor(k, item, rx, now);
    if plan != [] && rx.patientId !in users.rows {
      assert plan[0].patientId !in users.rows;
    }
  }

  /** `addPrescriptionItem`, with `now` for the clock: the item is set to the
      prescription, saved, and given its reminders. */
  method AddPrescriptionItem(db: Database, prescriptionId: int, input: Items.ItemInput, now: DateTime)
    returns (r: Result<Items.SavedItem>)
    requires Linked(db)
    modifies db`items, db`medReminders
    ensures Linked(db)
    ensures r.Err? <==> AddError(db.prescriptions, db.medications, db.users, prescriptionId, input).Some?
    ensures r.Err? ==> (
      && r.error == AddError(db.prescriptions, db.medications, db.users, prescriptionId, input).value
      && db.items == old(db.items) && db.medReminders == old(db.medReminders))
    ensures r.Ok? ==>
      var row := Items.NewRow(input.(prescriptionId := Some(prescriptionId)), now);
      && r.value == Items.SavedItem(old(db.items.next), row, Some(Items.DailyTotal(input.doses)))
      && db.items == old(db.items).Insert(row)
      && db.medReminders == old(db.medReminders).InsertAll(
           Plans.PlannedFor(old(db.items.next), row, db.prescriptions.rows[prescriptionId], now))
  {
    if prescriptionId !in db.prescriptions.rows {
      return Err(RuntimeException);
    }
    ghost var items, medReminders := db.items, db.medReminders;
    r := SaveItemWithReminders(db, input, prescriptionId, now);
    ReplaceItemsKeepsLinks(db.records, db.prescriptions, items, medReminders, db.reminders, db.recordLabs,
                           db.labResults, db.items, db.medReminders);
  }

  /** The item part of `addPrescriptionItem`: the item is saved under
      prescription `id` and given its reminders; when either step fails
      nothing is saved. */
  method SaveItemWithReminders(db: Database, input: Items.ItemInput, id: int, now: DateTime)
    returns (r: Result<Items.SavedItem>)
    requires db.items.Issued() && db.medReminders.Issued()
    requires ItemsLinked(db.items, db.prescriptions) && MedRemindersLinked(db.medReminders, db.items)
    requires id in db.prescriptions.rows
    modifies db`items, db`medReminders
    ensures db.items.Issued() && db.medReminders.Issued()
    ensures ItemsLinked(db.items, db.prescriptions) && MedRemindersLinked(db.medReminders, db.items)
    ensures r.Err? <==> AddError(db.prescriptions, db.medications, db.users, id, input).Some?
    ensures r.Err? ==> (
      && r.error == AddError(db.prescriptions, db.medications, db.users, id, input).value
      && db.items == old(db.items) && db.medReminders == old(db.medReminders))
    ensures r.Ok? ==>
      var row := Items.NewRow(input.(prescriptionId := Some(id)), now);
      && r.value == Items.SavedItem(old(db.items.next), row, Some(Items.DailyTotal(input.doses)))
      && db.items == old(db.items).Insert(row)
      && db.medReminders == old(db.medReminders).InsertAll(Plans.PlannedFor(old(db.items.next), row, db.prescriptions.rows[id], now))
  {
    var itemsBefore := db.items;
    var saved := Items.CreatePrescriptionItem(db, input.(prescriptionId := Some(id)), now);
    if saved.Err? {
      return Err(saved.error);
    }
    var k := saved.value.id;
    PlanErrorIsAddError(db.items, db.prescriptions, db.medications, db.users, k, id, input, now);
    SingleItemPlan(db.items, db.prescriptions, db.users, k, now);
    var reminders := RemindersOrRollback(db, itemsBefore, k, now);
    if reminders.Err? {
      return Err(reminders.error);
    }
    r := saved;
  }

  /** The reminders of the item just saved at `k`; when they fail, the
      items go back to `itemsBefore`. */
  method RemindersOrRollback(db: Database, itemsBefore: Table<ItemRow>, k: int, now: DateTime) returns (r: Result<seq<int>>)
    requires db.items.Issued() && db.medReminders.Issued() && itemsBefore.Issued()
    requires ItemsLinked(db.items, db.prescriptions) && MedRemindersLinked(db.medReminders, db.items)
    requires ItemsLinked(itemsBefore, db.prescriptions) && MedRemindersLinked(db.medReminders, itemsBefore)
    requires k in db.items.rows
    modifies db`items, db`medReminders
    ensures db.items.Issued() && db.medReminders.Issued()
    ensures ItemsLinked(db.items, db.prescriptions) && MedRemindersLinked(db.medReminders, db.items)
    ensures r.Err? <==> Plans.PlanError(old(db.items), db.prescriptions, db.users, [k], now).Some?
    ensures r.Err? ==> (
      && r.error == Plans.PlanError(old(db.items), db.prescriptions, db.users, [k], now).value
      && db.items == itemsBefore && db.medReminders == old(db.medReminders))
    ensures r.Ok? ==> (
      && Plans.Known(old(db.items), [k])
      && db.items == old(db.items)
      && db.medReminders == old(db.medReminders).InsertAll(Plans.Plan(old(db.items), db.prescriptions, [k], now)))
  {
    r := Plans.CreateRemindersFromPrescriptionItems(db, [k], now);
    if r.Err? {
      db.items := itemsBefore;
    }
  }

  /** Once the item is saved, its reminders fail exactly as the checks of
      `addPrescriptionItem` say. */
  lemma PlanErrorIsAddError(items: Table<ItemRow>, prescriptions: Table<PrescriptionRow>, medications: Table<MedicationRow>,
                            users: Table<UserRow>, k: int, id: int, input: Items.ItemInput, now: DateTime)
    requires ItemsLinked(items, prescriptions) && k in items.rows && id in prescriptions.rows
    requires items.rows[k] == Items.NewRow(input.(prescriptionId := Some(id)), now)
    requires input.medicationId in medications.rows
    ensures Plans.PlanError(items, prescriptions, users, [k], now) == AddError(prescriptions, medications, users, id, input)
  {
    SingleItemPlan(items, prescriptions, users, k, now);
  }

  /** `removePrescriptionItem`: the item goes with its medication
      reminders, whichever prescription it belongs to; `prescriptionId`
      is not consulted. */
  method RemovePrescriptionItem(db: Database, prescriptionId: int, itemId: int)
    requires Linked(db)
    modifies db`items, db`medReminders
    ensures Linked(db)
    ensures db.items == old(db.items).DeleteKey(itemId)
    ensures db.medReminders == old(db.medReminders).Delete(Items.RemindersOf(itemId))
  {
    Items.DeletePrescriptionItem(db, itemId);
  }

  /** `generateMedicationReminders`: the reminders of every item of the
      prescription, in key order. The prescription itself is not looked
      up. */
  method GenerateMedicationReminders(db: Database, prescriptionId: int, now: DateTime) returns (r: Result<seq<int>>)
    requires Linked(db)
    modifies db`medReminders
    ensures Linked(db)
    ensures var ids := Items.FindByPrescriptionId(db.items, prescriptionId);
      && Plans.Known(db.items, ids)
      && (r.Err? <==> !Plans.PatientsKnown(db.users, Plans.Plan(db.items, db.prescriptions, ids, now)))
      && (r.Err? ==> r.error == DataIntegrityViolationException && db.medReminders == old(db.medReminders))
      && (r.Ok? ==> db.medReminders == old(db.medReminders).InsertAll(Plans.Plan(db.items, db.prescriptions, ids, now)))
  {
    var ids := Items.FindByPrescriptionId(db.items, prescriptionId);
    assert Plans.Known(db.items, ids) by {
      forall i | 0 <= i < |ids| ensures ids[i] in db.items.rows { assert ids[i] in ids; }
    }
    r := Plans.CreateRemindersFromPrescriptionItems(db, ids, now);
  }

  /** A prescription that is not stored has no items, so generating its
      reminders saves nothing. */
  lemma GenerateForUnknownPrescription(items: Table<ItemRow>, prescriptions: Table<PrescriptionRow>, prescriptionId: int,
                                       now: DateTime)
    requires items.Issued() && ItemsLinked(items, prescriptions) && prescriptionId !in prescriptions.rows
    ensures Items.FindByPrescriptionId(items, prescriptionId) == []
    ensures Plans.Plan(items, prescriptions, [], now) == []
  {
    items.WhereNothing(Items.OfPrescription(prescriptionId));
  }

  /** `updatePrescriptionStatus`: only the status changes. */
  method UpdatePrescriptionStatus(db: Database, id: int, status: Option<string>) returns (r: Result<PrescriptionRow>)
    requires Linked(db)
    modifies db`prescriptions
    ensures Linked(db)
    ensures r.Err? <==> id !in old(db.prescriptions.rows)
    ensures r.Err? ==> r.error == RuntimeException && db.prescriptions == old(db.prescriptions)
    ensures r.Ok? ==> (
      && r.value == old(db.prescriptions.rows[id]).(status := status)
      && db.prescriptions == old(db.prescriptions).Put(id, r.value))
  {
    if id !in db.prescriptions.rows {
      return Err(RuntimeException);
    }
    var row := db.prescriptions.rows[id].(status := status);
    db.prescriptions := db.prescriptions.Put(id, row);
    r := Ok(row);
  }

  /** `cancelPrescription`. */
  method CancelPrescription(db: Database, id: int) returns (r: Result<PrescriptionRow>)
    requires Linked(db)
    modifies db`prescriptions
    ensures Linked(db)
    ensures r.Err? <==> id !in old(db.prescriptions.rows)
    ensures r.Err? ==> r.error == RuntimeException && db.prescriptions == old(db.prescriptions)
    ensures r.Ok? ==> (
      && r.value == old(db.prescriptions.rows[id]).(status := Some("cancelled"))
      && db.prescriptions == old(db.prescriptions).Put(id, r.value))
  {
    r := UpdatePrescriptionStatus(db, id, Some("cancelled"));
  }

  /** `completePrescription`. */
  method CompletePrescription(db: Database, id: int) returns (r: Result<PrescriptionRow>)
    requires Linked(db)
    modifies db`prescriptions
    ensures Linked(db)
    ensures r.Err? <==> id !in old(db.prescriptions.rows)
    ensures r.Err? ==> r.error == RuntimeException && db.prescriptions == old(db.prescriptions)
    ensures r.Ok? ==> (
      && r.value == old(db.prescriptions.rows[id]).(status := Some("completed"))
      && db.prescriptions == old(db.prescriptions).Put(id, r.value))
  {
    r := UpdatePrescriptionStatus(db, id, Some("completed"));
  }

  /** A status change keeps every other column of the header. */
  lemma StatusChangeKeepsRest(row: PrescriptionRow, status: Option<string>)
    requires status.Some?
    ensures var r := row.(status := status);
      && r.status == status
      && Amended(row, PrescriptionInput(None, None, None, None, None, None, None, None, status)) == r
  {
  }

  /** `findById`. */
  function FindById(prescriptions: Table<PrescriptionRow>, id: int): (r: Result<PrescriptionRow>)
    ensures r.Err? <==> id !in prescriptions.rows
    ensures r.Err? ==> r.error == RuntimeException
    ensures r.Ok? ==> r.value == prescriptions.rows[id]
  {
    if id in prescriptions.rows then Ok(prescriptions.rows[id]) else Err(RuntimeException)
  }
}
