/** The general reminder service: reminders a patient gets for a
    prescription, a medical record or an appointment, with a title, an
    optional message, a period (`startDate`, optional `endDate`), an optional
    single day (`reminderDate`) and an optional time of day.

    Every method of the service runs in one transaction: a method that throws
    leaves the reminder table as it was.
 */
module Reminders {
  import opened Wrappers
  import opened Text
  import opened Dates
  import opened Tables
  import opened ClinicDb
  import Plans = MedicationReminders

  // ---- the status words ----

  /** A status string means "active" unless it is "inactive" or "disabled",
      ignoring case. A null status is neither word, so it means active. */
  predicate StatusActive(status: Option<string>) {
    && !(status.Some? && EqualsIgnoreCase(status.value, "inactive"))
    && !(status.Some? && EqualsIgnoreCase(status.value, "disabled"))
  }

  /** The two words that deactivate have eight letters, so every status of
      another length means active. */
  lemma OtherLengthsActive(s: string)
    requires |s| != 8
    ensures StatusActive(Some(s))
  {
  }

  /** "inactive" and "disabled" deactivate whatever their case; a null
      status, "active" and the empty string activate. */
  lemma StatusWords()
    ensures !StatusActive(Some("inactive")) && !StatusActive(Some("INACTIVE")) && !StatusActive(Some("Disabled"))
    ensures StatusActive(None) && StatusActive(Some("active")) && StatusActive(Some(""))
  {
    assert EqualsIgnoreCase("inactive", "inactive");
    assert EqualsIgnoreCase("INACTIVE", "inactive");
    assert EqualsIgnoreCase("Disabled", "disabled");
    OtherLengthsActive("active");
    OtherLengthsActive("");
  }

  // ---- rows written by the service ----

  /** The foreign keys a reminder names, when it names them, are stored:
      otherwise the insert violates a constraint. */
  predicate Storable(row: ReminderRow, records: Table<MedicalRecordRow>, prescriptions: Table<PrescriptionRow>) {
    && (row.medicalRecordId.Some? ==> row.medicalRecordId.value in records.rows)
    && (row.prescriptionId.Some? ==> row.prescriptionId.value in prescriptions.rows)
  }

  predicate AllStorable(rows: seq<ReminderRow>, records: Table<MedicalRecordRow>, prescriptions: Table<PrescriptionRow>) {
    forall i :: 0 <= i < |rows| ==> Storable(rows[i], records, prescriptions)
  }

  /** The row `createReminder` stores. The entity's persist hook stamps both
      timestamps with the current time, after the service has filled in a
      missing `createdAt`, so a given `createdAt` is replaced as well. */
  function Created(row: ReminderRow, now: DateTime): (r: ReminderRow)
    ensures r.createdAt == Some(now) && r.updatedAt == Some(now)
    ensures r.(createdAt := row.createdAt, updatedAt := row.updatedAt) == row
  {
    row.(createdAt := Some(now), updatedAt := Some(now))
  }

  /** The stored row does not depend on the timestamps the caller set. */
  lemma CreatedIgnoresTimestamps(row: ReminderRow, createdAt: Option<DateTime>, updatedAt: Option<DateTime>, now: DateTime)
    ensures Created(row.(createdAt := createdAt, updatedAt := updatedAt), now) == Created(row, now)
  {
  }

  /** The rows `createReminders` stores, in input order. */
  function CreatedAll(rows: seq<ReminderRow>, now: DateTime): (r: seq<ReminderRow>)
    ensures |r| == |rows| && forall i :: 0 <= i < |rows| ==> r[i] == Created(rows[i], now)
  {
    seq(|rows|, i requires 0 <= i < |rows| => Created(rows[i], now))
  }

  /** The active flag set and the update time stamped. */
  function WithActive(row: ReminderRow, active: bool, now: DateTime): (r: ReminderRow)
    ensures r.isActive == Some(active) && r.updatedAt == Some(now)
    ensures r.(isActive := row.isActive, updatedAt := row.updatedAt) == row
  {
    row.(isActive := Some(active), updatedAt := Some(now))
  }

  /** The values `updateReminder` copies from the request. */
  datatype ReminderChanges = ReminderChanges(
    title: Option<string>, message: Option<string>, reminderTime: Option<Minute>,
    reminderType: Option<string>, isActive: Option<bool>)

  /** The checks of `updateReminder`: the reminder exists, then the NOT NULL
      title and type are given. */
  function UpdateError(reminders: Table<ReminderRow>, id: int, c: ReminderChanges): (e: Option<Exception>)
    ensures e.None? <==> id in reminders.rows && c.title.Some? && c.reminderType.Some?
    ensures id !in reminders.rows ==> e == Some(RuntimeException)
    ensures id in reminders.rows && e.Some? ==> e.value == DataIntegrityViolationException
  {
    if id !in reminders.rows then Some(RuntimeException)
    else if c.title.None? || c.reminderType.None? then Some(DataIntegrityViolationException)
    else None
  }

  /** The reminder after `updateReminder`: title, message, time, type and
      flag come from the request and the update time is stamped; the patient,
      the links, the dates and the creation time stay. */
  function Overwritten(row: ReminderRow, c: ReminderChanges, now: DateTime): (r: ReminderRow)
    requires c.title.Some? && c.reminderType.Some?
    ensures r.title == c.title.value && r.message == c.message && r.reminderTime == c.reminderTime
    ensures r.reminderType == c.reminderType.value && r.isActive == c.isActive && r.updatedAt == Some(now)
    ensures r.patientId == row.patientId && r.prescriptionId == row.prescriptionId
    ensures r.medicalRecordId == row.medicalRecordId && r.startDate == row.startDate
    ensures r.endDate == row.endDate && r.reminderDate == row.reminderDate
    ensures r.daysBeforeAppointment == row.daysBeforeAppointment && r.createdAt == row.createdAt
  {
    row.(title := c.title.value, message := c.message, reminderTime := c.reminderTime,
         reminderType := c.reminderType.value, isActive := c.isActive, updatedAt := Some(now))
  }

  /** An update keeps a reminder's links, so it keeps them stored. */
  lemma UpdateKeepsLinks(reminders: Table<ReminderRow>, records: Table<MedicalRecordRow>,
                         prescriptions: Table<PrescriptionRow>, id: int, row: ReminderRow)
    requires RemindersLinked(reminders, records, prescriptions) && id in reminders.rows
    requires row.medicalRecordId == reminders.rows[id].medicalRecordId
    requires row.prescriptionId == reminders.rows[id].prescriptionId
    ensures RemindersLinked(reminders.Put(id, row), records, prescriptions)
  {
  }

  // ---- the date rule of today's list ----

  /** Whether a reminder applies on `date`: a reminder with its own day
      applies on that day only; otherwise a start and an end give an
      inclusive range, a start alone an open-ended one, and a reminder with
      neither applies every day. */
  predicate AppliesOn(reminderDate: Option<Date>, startDate: Option<Date>, endDate: Option<Date>, date: Date) {
    if reminderDate.Some? then reminderDate.value == date
    else if startDate.Some? && endDate.Some? then !Before(date, startDate.value) && !Before(endDate.value, date)
    else if startDate.Some? then !Before(date, startDate.value)
    else true
  }

  /** Each of the four cases of the rule. */
  lemma AppliesOnCases(reminderDate: Option<Date>, startDate: Option<Date>, endDate: Option<Date>, date: Date)
    ensures reminderDate.Some? ==> (AppliesOn(reminderDate, startDate, endDate, date) <==> reminderDate.value == date)
    ensures reminderDate.None? && startDate.Some? && endDate.Some? ==>
      (AppliesOn(reminderDate, startDate, endDate, date) <==> !Before(date, startDate.value) && !Before(endDate.value, date))
    ensures reminderDate.None? && startDate.Some? && endDate.None? ==>
      (AppliesOn(reminderDate, startDate, endDate, date) <==> !Before(date, startDate.value))
    ensures reminderDate.None? && startDate.None? ==> AppliesOn(reminderDate, startDate, endDate, date)
  {
  }

  /** A reminder with its own day applies on one day at most. */
  lemma DatedAppliesOnce(reminderDate: Date, startDate: Option<Date>, endDate: Option<Date>, d1: Date, d2: Date)
    requires AppliesOn(Some(reminderDate), startDate, endDate, d1) && AppliesOn(Some(reminderDate), startDate, endDate, d2)
    ensures d1 == d2
  {
  }

  /** A period whose end is not before its start covers both ends. */
  lemma PeriodCoversEnds(startDate: Date, endDate: Date)
    requires !Before(endDate, startDate)
    ensures AppliesOn(None, Some(startDate), Some(endDate), startDate)
    ensures AppliesOn(None, Some(startDate), Some(endDate), endDate)
  {
    BeforeTotal(startDate, endDate);
    BeforeTotal(startDate, startDate);
  }

  /** The days a reminder applies on have no gaps: between two such days
      every day is one. */
  lemma AppliesOnConvex(reminderDate: Option<Date>, startDate: Option<Date>, endDate: Option<Date>,
                        d1: Date, d2: Date, d3: Date)
    requires Before(d1, d2) && Before(d2, d3)
    requires AppliesOn(reminderDate, startDate, endDate, d1) && AppliesOn(reminderDate, startDate, endDate, d3)
    ensures AppliesOn(reminderDate, startDate, endDate, d2)
  {
    BeforeTransitive(d1, d2, d3);
    if reminderDate.None? && startDate.Some? {
      if Before(d2, startDate.value) {
        BeforeTransitive(d1, d2, startDate.value);
      }
      if endDate.Some? && Before(endDate.value, d2) {
        BeforeTransitive(endDate.value, d2, d3);
      }
    }
  }

  /** An open-ended reminder keeps applying once it has started. */
  lemma OpenEndedKeepsApplying(startDate: Date, d1: Date, d2: Date)
    requires AppliesOn(None, Some(startDate), None, d1) && Before(d1, d2)
    ensures AppliesOn(None, Some(startDate), None, d2)
  {
    if Before(d2, startDate) {
      BeforeTransitive(d1, d2, startDate);
      BeforeTransitive(d1, startDate, d1);
      BeforeTotal(d1, d1);
    }
  }

  /** The rule applied to a stored reminder, whose start date is NOT NULL. */
  predicate RowAppliesOn(row: ReminderRow, date: Date) {
    AppliesOn(row.reminderDate, Some(row.startDate), row.endDate, date)
  }

  /** A stored reminder never reaches the last case: without its own day it
      applies exactly from its start, up to its end when it has one. */
  lemma StoredRowRule(row: ReminderRow, date: Date)
    requires row.reminderDate.None?
    ensures RowAppliesOn(row, date) <==>
      !Before(date, row.startDate) && (row.endDate.Some? ==> !Before(row.endDate.value, date))
  {
  }

  // ---- the methods that write ----

  /** `createReminder`: the row gets the next identity and both timestamps;
      a link to an unknown record or prescription throws. */
  method CreateReminder(db: Database, row: ReminderRow, now: DateTime) returns (r: Result<int>)
    requires db.reminders.Issued() && RemindersLinked(db.reminders, db.records, db.prescriptions)
    modifies db`reminders
    ensures db.reminders.Issued() && RemindersLinked(db.reminders, db.records, db.prescriptions)
    ensures r.Ok? <==> Storable(row, db.records, db.prescriptions)
    ensures r.Err? ==> r.error == DataIntegrityViolationException && db.reminders == old(db.reminders)
    ensures r.Ok? ==> r.value == old(db.reminders.next) && db.reminders == old(db.reminders).Insert(Created(row, now))
  {
    if !Storable(row, db.records, db.prescriptions) {
      return Err(DataIntegrityViolationException);
    }
    r := Ok(db.reminders.next);
    db.reminders := db.reminders.Insert(Created(row, now));
  }

  /** Saving one created row after a prefix of created rows. */
  lemma CreatedStep(t0: Table<ReminderRow>, rows: seq<ReminderRow>, i: int, now: DateTime, before: Table<ReminderRow>)
    requires 0 <= i < |rows| && before == t0.InsertAll(CreatedAll(rows, now)[..i])
    ensures before.Insert(Created(rows[i], now)) == t0.InsertAll(CreatedAll(rows, now)[..i + 1])
  {
    var all := CreatedAll(rows, now);
    assert all[..i + 1] == all[..i] + [all[i]];
    t0.InsertAllSnoc(all[..i], all[i]);
  }

  lemma StorableStep(rows: seq<ReminderRow>, i: int, records: Table<MedicalRecordRow>, prescriptions: Table<PrescriptionRow>)
    requires 0 <= i < |rows| && AllStorable(rows[..i], records, prescriptions) && Storable(rows[i], records, prescriptions)
    ensures AllStorable(rows[..i + 1], records, prescriptions)
  {
    assert rows[..i + 1] == rows[..i] + [rows[i]];
  }

  /** `createReminders`: each reminder is created in input order; one that
      throws rolls back the whole call. */
  method CreateReminders(db: Database, rows: seq<ReminderRow>, now: DateTime) returns (r: Result<seq<int>>)
    requires db.reminders.Issued() && RemindersLinked(db.reminders, db.records, db.prescriptions)
    modifies db`reminders
    ensures db.reminders.Issued() && RemindersLinked(db.reminders, db.records, db.prescriptions)
    ensures r.Ok? <==> AllStorable(rows, db.records, db.prescriptions)
    ensures r.Err? ==> r.error == DataIntegrityViolationException && db.reminders == old(db.reminders)
    ensures r.Ok? ==> (
      && r.value == Plans.KeysFrom(old(db.reminders.next), |rows|)
      && db.reminders == old(db.reminders).InsertAll(CreatedAll(rows, now)))
  {
    var t0 := db.reminders;
    var ids: seq<int> := [];
    var i := 0;
    assert CreatedAll(rows, now)[..0] == [];
    while i < |rows|
      invariant 0 <= i <= |rows| && AllStorable(rows[..i], db.records, db.prescriptions)
      invariant db.reminders == t0.InsertAll(CreatedAll(rows, now)[..i])
      invariant db.reminders.Issued() && RemindersLinked(db.reminders, db.records, db.prescriptions)
      invariant ids == Plans.KeysFrom(t0.next, i)
    {
      ghost var before := db.reminders;
      var created := CreateReminder(db, rows[i], now);
      if created.Err? {
        db.reminders := t0;
        return Err(created.error);
      }
      CreatedStep(t0, rows, i, now, before);
      StorableStep(rows, i, db.records, db.prescriptions);
      Plans.KeysFromSnoc(ids, t0.next, i, created.value);
      ids := ids + [created.value];
      i := i + 1;
    }
    assert rows[..i] == rows;
    assert CreatedAll(rows, now)[..i] == CreatedAll(rows, now);
    r := Ok(ids);
  }

  /** `updateReminder`. */
  method UpdateReminder(db: Database, id: int, c: ReminderChanges, now: DateTime) returns (r: Result<ReminderRow>)
    requires RemindersLinked(db.reminders, db.records, db.prescriptions)
    modifies db`reminders
    ensures RemindersLinked(db.reminders, db.records, db.prescriptions)
    ensures r.Err? <==> old(UpdateError(db.reminders, id, c)).Some?
    ensures r.Err? ==> r.error == old(UpdateError(db.reminders, id, c)).value && db.reminders == old(db.reminders)
    ensures r.Ok? ==> (
      && r.value == Overwritten(old(db.reminders.rows[id]), c, now)
      && db.reminders == old(db.reminders).Put(id, r.value))
  {
    var e := UpdateError(db.reminders, id, c);
    if e.Some? {
      return Err(e.value);
    }
    var row := Overwritten(db.reminders.rows[id], c, now);
    UpdateKeepsLinks(db.reminders, db.records, db.prescriptions, id, row);
    db.reminders := db.reminders.Put(id, row);
    r := Ok(row);
  }

  /** The active flag of an existing reminder is set and its update time
      stamped; a missing reminder throws. */
  method SetActive(db: Database, id: int, active: bool, now: DateTime) returns (r: Result<ReminderRow>)
    requires RemindersLinked(db.reminders, db.records, db.prescriptions)
    modifies db`reminders
    ensures RemindersLinked(db.reminders, db.records, db.prescriptions)
    ensures r.Err? <==> id !in old(db.reminders.rows)
    ensures r.Err? ==> r.error == RuntimeException && db.reminders == old(db.reminders)
    ensures r.Ok? ==> (
      && r.value == WithActive(old(db.reminders.rows[id]), active, now)
      && db.reminders == old(db.reminders).Put(id, r.value))
  {
    if id !in db.reminders.rows {
      return Err(RuntimeException);
    }
    var row := WithActive(db.reminders.rows[id], active, now);
    UpdateKeepsLinks(db.reminders, db.records, db.prescriptions, id, row);
    db.reminders := db.reminders.Put(id, row);
    r := Ok(row);
  }

  /** `updateStatus`: the flag follows the status rule. */
  method UpdateStatus(db: Database, id: int, status: Option<string>, now: DateTime) returns (r: Result<ReminderRow>)
    requires RemindersLinked(db.reminders, db.records, db.prescriptions)
    modifies db`reminders
    ensures RemindersLinked(db.reminders, db.records, db.prescriptions)
    ensures r.Err? <==> id !in old(db.reminders.rows)
    ensures r.Err? ==> r.error == RuntimeException && db.reminders == old(db.reminders)
    ensures r.Ok? ==> (
      && r.value == WithActive(old(db.reminders.rows[id]), StatusActive(status), now)
      && db.reminders == old(db.reminders).Put(id, r.value))
  {
    r := SetActive(db, id, StatusActive(status), now);
  }

  /** `markAsSent`: a sent reminder becomes inactive. */
  method MarkAsSent(db: Database, id: int, now: DateTime) returns (r: Result<ReminderRow>)
    requires RemindersLinked(db.reminders, db.records, db.prescriptions)
    modifies db`reminders
    ensures RemindersLinked(db.reminders, db.records, db.prescriptions)
    ensures r.Err? <==> id !in old(db.reminders.rows)
    ensures r.Err? ==> r.error == RuntimeException && db.reminders == old(db.reminders)
    ensures r.Ok? ==> (
      && r.value == WithActive(old(db.reminders.rows[id]), false, now)
      && db.reminders == old(db.reminders).Put(id, r.value))
  {
    r := SetActive(db, id, false, now);
  }

  /** `deleteReminder`: `deleteById` ignores a missing id. */
  method DeleteReminder(db: Database, id: int)
    requires RemindersLinked(db.reminders, db.records, db.prescriptions)
    modifies db`reminders
    ensures RemindersLinked(db.reminders, db.records, db.prescriptions)
    ensures db.reminders == old(db.reminders).DeleteKey(id)
    ensures id !in db.reminders.rows
    ensures id !in old(db.reminders.rows) ==> db.reminders.rows == old(db.reminders.rows)
  {
    db.reminders := db.reminders.DeleteKey(id);
  }

  // ---- the queries ----

  /** `findById`. */
  function FindById(reminders: Table<ReminderRow>, id: int): (r: Result<ReminderRow>)
    ensures r.Err? <==> id !in reminders.rows
    ensures r.Err? ==> r.error == RuntimeException
    ensures r.Ok? ==> r.value == reminders.rows[id]
  {
    if id in reminders.rows then Ok(reminders.rows[id]) else Err(RuntimeException)
  }

  /** A derived query on the NOT NULL patient column: a null argument becomes
      `IS NULL`, which no row meets. */
  function OfPatient(patientId: Option<int>): ReminderRow -> bool {
    (row: ReminderRow) => patientId.Some? && row.patientId == patientId.value
  }

  function OfType(reminderType: Option<string>): ReminderRow -> bool {
    (row: ReminderRow) => reminderType.Some? && row.reminderType == reminderType.value
  }

  function ActiveOfPatient(patientId: Option<int>): ReminderRow -> bool {
    (row: ReminderRow) => patientId.Some? && row.patientId == patientId.value && row.isActive == Some(true)
  }

  /** `findByPatientId`. */
  function FindByPatientId(reminders: Table<ReminderRow>, patientId: Option<int>): (r: seq<int>)
    requires reminders.Issued()
    ensures forall k :: k in r <==> patientId.Some? && k in reminders.rows && reminders.rows[k].patientId == patientId.value
  {
    reminders.Where(OfPatient(patientId))
  }

  /** `findByType`: exact string equality on the type column. */
  function FindByType(reminders: Table<ReminderRow>, reminderType: Option<string>): (r: seq<int>)
    requires reminders.Issued()
    ensures forall k :: k in r <==>
      reminderType.Some? && k in reminders.rows && reminders.rows[k].reminderType == reminderType.value
  {
    reminders.Where(OfType(reminderType))
  }

  /** `findActiveByPatientId`: the patient's reminders whose flag is true; a
      null flag is not true. */
  function FindActiveByPatientId(reminders: Table<ReminderRow>, patientId: Option<int>): (r: seq<int>)
    requires reminders.Issued()
    ensures forall k :: k in r <==>
      patientId.Some? && k in reminders.rows && reminders.rows[k].patientId == patientId.value
      && reminders.rows[k].isActive == Some(true)
  {
    reminders.Where(ActiveOfPatient(patientId))
  }

  /** `findByPatientIdAndType`: the patient's reminders of exactly that type.
      The type is compared as `type.equals(...)`, so a null type throws as
      soon as the patient has a reminder to compare. */
  function FindByPatientIdAndType(reminders: Table<ReminderRow>, patientId: Option<int>, reminderType: Option<string>)
    : (r: Result<seq<int>>)
    requires reminders.Issued()
    ensures r.Err? <==> reminderType.None? && FindByPatientId(reminders, patientId) != []
    ensures r.Err? ==> r.error == NullPointerException
    ensures r.Ok? ==> forall k :: k in r.value <==> k in FindByPatientId(reminders, patientId) && k in FindByType(reminders, reminderType)
    ensures r.Ok? ==> forall i, j :: 0 <= i < j < |r.value| ==> r.value[i] < r.value[j]
  {
    if reminderType.None? && FindByPatientId(reminders, patientId) != [] then Err(NullPointerException)
    else Ok(reminders.Where((row: ReminderRow) => OfPatient(patientId)(row) && OfType(reminderType)(row)))
  }

  function AtTimeOfDay(time: Minute): ReminderRow -> bool {
    (row: ReminderRow) => row.reminderTime == Some(time)
  }

  /** `findByReminderTime`: reminders whose time of day equals that of the
      argument; the day of the argument is ignored and a null time never
      matches. */
  function FindByReminderTime(reminders: Table<ReminderRow>, at: DateTime): (r: seq<int>)
    requires reminders.Issued()
    ensures forall k :: k in r <==> k in reminders.rows && reminders.rows[k].reminderTime == Some(at.time)
  {
    reminders.Where(AtTimeOfDay(at.time))
  }

  /** Only the time of day of the argument matters. */
  lemma ReminderTimeIgnoresDay(reminders: Table<ReminderRow>, a: DateTime, b: DateTime)
    requires reminders.Issued() && a.time == b.time
    ensures FindByReminderTime(reminders, a) == FindByReminderTime(reminders, b)
  {
  }

  /** Whether `findRemindersToSend` picks a reminder: it is active and its
      own day lies in the days of the two bounds, both included; a
      reminder without its own day is never picked. */
  predicate ToSend(row: ReminderRow, startTime: DateTime, endTime: DateTime) {
    && row.isActive == Some(true)
    && row.reminderDate.Some?
    && !Before(row.reminderDate.value, startTime.date)
    && !Before(endTime.date, row.reminderDate.value)
  }

  /** `findRemindersToSend`. */
  function FindRemindersToSend(reminders: Table<ReminderRow>, startTime: DateTime, endTime: DateTime): (r: seq<int>)
    requires reminders.Issued()
    ensures forall k :: k in r ==> k in reminders.rows && reminders.rows[k].isActive == Some(true)
    ensures forall k :: k in r ==> reminders.rows[k].reminderDate.Some?
    ensures forall k :: k in r <==> k in reminders.rows && ToSend(reminders.rows[k], startTime, endTime)
  {
    reminders.Where((row: ReminderRow) => ToSend(row, startTime, endTime))
  }

  /** Within one day, a reminder is to be sent exactly when it is active and
      dated that day, whatever the times of the two bounds. */
  lemma ToSendOnOneDay(row: ReminderRow, startTime: DateTime, endTime: DateTime)
    requires startTime.date == endTime.date
    ensures ToSend(row, startTime, endTime) <==> row.isActive == Some(true) && row.reminderDate == Some(startTime.date)
  {
    if row.reminderDate.Some? {
      BeforeTotal(row.reminderDate.value, startTime.date);
    }
  }

  /** `findByStatus`: reminders whose flag equals the status rule's answer;
      a null flag equals neither. */
  function FindByStatus(reminders: Table<ReminderRow>, status: Option<string>): (r: seq<int>)
    requires reminders.Issued()
    ensures forall k :: k in r <==> k in reminders.rows && reminders.rows[k].isActive == Some(StatusActive(status))
  {
    reminders.Where((row: ReminderRow) => row.isActive == Some(StatusActive(status)))
  }

  /** `findActiveRemindersByDate`: the patient's active reminders that apply
      on the day. */
  function FindActiveRemindersByDate(reminders: Table<ReminderRow>, patientId: Option<int>, date: Date): (r: seq<int>)
    requires reminders.Issued()
    ensures forall k :: k in r ==> k in FindActiveByPatientId(reminders, patientId)
    ensures forall k :: k in r <==> k in FindActiveByPatientId(reminders, patientId) && RowAppliesOn(reminders.rows[k], date)
    ensures forall i, j :: 0 <= i < j < |r| ==> r[i] < r[j]
  {
    reminders.Where((row: ReminderRow) => ActiveOfPatient(patientId)(row) && RowAppliesOn(row, date))
  }

  // ---- how the operations meet ----

  /** updateStatus and findByStatus share the rule: a reminder just updated
      with a status is listed under that status. */
  lemma UpdatedStatusListed(reminders: Table<ReminderRow>, id: int, status: Option<string>, now: DateTime)
    requires reminders.Issued() && id in reminders.rows
    ensures id in FindByStatus(reminders.Put(id, WithActive(reminders.rows[id], StatusActive(status), now)), status)
  {
  }

  /** A reminder marked as sent is no longer to be sent, and no longer in
      its patient's list for any day. */
  lemma SentLeavesLists(reminders: Table<ReminderRow>, id: int, now: DateTime, startTime: DateTime, endTime: DateTime,
                        patientId: Option<int>, date: Date)
    requires reminders.Issued() && id in reminders.rows
    ensures id !in FindRemindersToSend(reminders.Put(id, WithActive(reminders.rows[id], false, now)), startTime, endTime)
    ensures id !in FindActiveRemindersByDate(reminders.Put(id, WithActive(reminders.rows[id], false, now)), patientId, date)
  {
  }

  /** A dated reminder in a patient's list for a day is also to be sent on
      that day. */
  lemma TodayIsToSend(reminders: Table<ReminderRow>, patientId: Option<int>, date: Date, k: int, at: Minute)
    requires reminders.Issued() && k in FindActiveRemindersByDate(reminders, patientId, date)
    requires reminders.rows[k].reminderDate.Some?
    ensures k in FindRemindersToSend(reminders, DateTime(date, 0), DateTime(date, at))
  {
    ToSendOnOneDay(reminders.rows[k], DateTime(date, 0), DateTime(date, at));
  }
}
