/** Doctor working days (DoctorScheduleServiceImpl and DoctorScheduleDTO).

    A schedule is one day of one doctor on a work shift. `createDoctorSchedule`
    refuses a second schedule for the same doctor and day; `createSchedule`
    and `updateDoctorSchedule` always attach work shift 1 and only check that
    the requested start time is not after the end time. Deleting a schedule
    first deletes its appointment slots.
 */
module DoctorSchedules {
  import opened Wrappers
  import opened Dates
  import opened Tables
  import opened ClinicDb

  /** The work shift `createSchedule` and `updateDoctorSchedule` attach. */
  const DEFAULT_SHIFT := 1

  /** `DoctorScheduleRequest`. */
  datatype ScheduleRequest = ScheduleRequest(
    doctorId: int, scheduleDate: Option<Date>, startTime: Option<Minute>, endTime: Option<Minute>)

  /** `DoctorScheduleResponse`. */
  datatype ScheduleResponse = ScheduleResponse(
    id: int, doctorId: int, doctorName: Option<string>, scheduleDate: Date, startTime: Minute, endTime: Minute)

  /** `DoctorScheduleDTO`, both as request body and as response;
      `scheduleDateText` is its `schedule_date` string field. */
  datatype ScheduleDto = ScheduleDto(
    id: Option<int>,
    doctorId: Option<int>,
    doctorName: Option<string>,
    scheduleDate: Option<Date>,
    startTime: Option<Minute>,
    endTime: Option<Minute>,
    workShiftId: Option<int>,
    notes: Option<string>,
    isAvailable: Option<bool>,
    scheduleDateText: Option<string>)

  /** `DoctorScheduleDTO.getScheduleDate`: the date field when set,
      otherwise the parsed `schedule_date` text; a missing, empty or
      unparsable text gives null. */
  function ScheduleDateOf(dto: ScheduleDto): (r: Option<Date>)
    ensures dto.scheduleDate.Some? ==> r == dto.scheduleDate
    ensures dto.scheduleDate.None? && (dto.scheduleDateText.None? || dto.scheduleDateText.value == "") ==> r.None?
    ensures r.Some? && dto.scheduleDate.None? ==>
      dto.scheduleDateText.Some? && ParseIsoDate(dto.scheduleDateText.value) == r
  {
    if dto.scheduleDate.None? && dto.scheduleDateText.Some? && dto.scheduleDateText.value != "" then
      ParseIsoDate(dto.scheduleDateText.value)
    else dto.scheduleDate
  }

  /** A date sent only as text is read back as that date. */
  lemma ScheduleDateFromText(dto: ScheduleDto, d: Date)
    requires 0 <= d.year <= 9999
    requires dto.scheduleDate.None? && dto.scheduleDateText == Some(FormatIsoDate(d))
    ensures ScheduleDateOf(dto) == Some(d)
  {
    ParseFormatRoundTrip(d);
  }

  /** Whatever text yields a date is the printed form of that date; any
      other text yields null. */
  lemma ScheduleDateTextExact(dto: ScheduleDto)
    requires dto.scheduleDate.None? && ScheduleDateOf(dto).Some?
    ensures 0 <= ScheduleDateOf(dto).value.year <= 9999
    ensures dto.scheduleDateText == Some(FormatIsoDate(ScheduleDateOf(dto).value))
  {
    ParseOnlyIsoDates(dto.scheduleDateText.value);
  }

  /** The tables the mappings read are consistent. */
  predicate Linked(db: Database)
    reads db
  {
    SchedulesLinked(db.schedules, db.doctors, db.workShifts) && DoctorsAreUsers(db.doctors, db.users)
  }

  /** No doctor has two schedules on one day. */
  predicate OneSchedulePerDay(schedules: Table<ScheduleRow>) {
    forall a, b :: a in schedules.rows && b in schedules.rows ==>
      (schedules.rows[a].doctorId == schedules.rows[b].doctorId
       && schedules.rows[a].scheduleDate == schedules.rows[b].scheduleDate) ==> a == b
  }

  /** `mapToDoctorScheduleResponse`: the doctor's name and the shift's times. */
  function MapToResponse(db: Database, id: int): (r: ScheduleResponse)
    reads db
    requires Linked(db) && id in db.schedules.rows
    ensures var s := db.schedules.rows[id];
      && r.id == id && r.doctorId == s.doctorId && r.scheduleDate == s.scheduleDate
      && r.doctorName == db.users.rows[s.doctorId].fullName
      && r.startTime == db.workShifts.rows[s.workShiftId].startTime
      && r.endTime == db.workShifts.rows[s.workShiftId].endTime
  {
    var s := db.schedules.rows[id];
    var shift := db.workShifts.rows[s.workShiftId];
    ScheduleResponse(id, s.doctorId, db.users.rows[s.doctorId].fullName, s.scheduleDate, shift.startTime, shift.endTime)
  }

  /** `mapToDoctorScheduleDTO`: always available; the work shift id and the
      notes are not copied. */
  function MapToDto(db: Database, id: int): (r: ScheduleDto)
    reads db
    requires Linked(db) && id in db.schedules.rows
    ensures var s := db.schedules.rows[id];
      && r.id == Some(id) && r.doctorId == Some(s.doctorId)
      && r.doctorName == db.users.rows[s.doctorId].fullName
      && ScheduleDateOf(r) == Some(s.scheduleDate)
      && r.startTime == Some(db.workShifts.rows[s.workShiftId].startTime)
      && r.endTime == Some(db.workShifts.rows[s.workShiftId].endTime)
      && r.isAvailable == Some(true) && r.workShiftId.None? && r.notes.None?
  {
    var s := db.schedules.rows[id];
    var shift := db.workShifts.rows[s.workShiftId];
    ScheduleDto(Some(id), Some(s.doctorId), db.users.rows[s.doctorId].fullName, Some(s.scheduleDate),
                Some(shift.startTime), Some(shift.endTime), None, None, Some(true), None)
  }

  /** The DTOs of the schedules at `ids`, in that order. */
  function DtosOf(db: Database, ids: seq<int>): (r: seq<ScheduleDto>)
    reads db
    requires Linked(db) && forall i :: 0 <= i < |ids| ==> ids[i] in db.schedules.rows
    ensures |r| == |ids| && forall i :: 0 <= i < |ids| ==> r[i] == MapToDto(db, ids[i])
  {
    if ids == [] then [] else [MapToDto(db, ids[0])] + DtosOf(db, ids[1..])
  }

  /** The time check of `createSchedule` and `updateDoctorSchedule`:
      `startTime.isAfter(endTime)`, which dereferences both times. */
  function TimeRangeError(startTime: Option<Minute>, endTime: Option<Minute>): (e: Option<Exception>)
    ensures e.None? <==> startTime.Some? && endTime.Some? && startTime.value <= endTime.value
    ensures e.Some? && startTime.Some? && endTime.Some? ==> e == Some(IllegalArgumentException)
  {
    if startTime.None? || endTime.None? then Some(NullPointerException)
    else if startTime.value > endTime.value then Some(IllegalArgumentException)
    else None
  }

  /** Where `createSchedule` fails, if it does: an unknown doctor or a
      missing shift 1, then the time check, then the NOT NULL date. */
  function CreateScheduleError(doctors: Table<DoctorRow>, workShifts: Table<WorkShiftRow>, req: ScheduleRequest)
    : (e: Option<Exception>)
    ensures req.doctorId !in doctors.rows ==> e == Some(ResourceNotFoundException)
    ensures e.None? <==>
      req.doctorId in doctors.rows && DEFAULT_SHIFT in workShifts.rows
      && TimeRangeError(req.startTime, req.endTime).None? && req.scheduleDate.Some?
  {
    if req.doctorId !in doctors.rows || DEFAULT_SHIFT !in workShifts.rows then Some(ResourceNotFoundException)
    else if TimeRangeError(req.startTime, req.endTime).Some? then TimeRangeError(req.startTime, req.endTime)
    else if req.scheduleDate.None? then Some(DataIntegrityViolationException)
    else None
  }

  /** `createSchedule`: saves a schedule on shift 1 without looking for
      another schedule of the doctor on that day. */
  method CreateSchedule(db: Database, req: ScheduleRequest) returns (r: Result<ScheduleResponse>)
    requires db.schedules.Issued() && Linked(db)
    modifies db`schedules
    ensures db.schedules.Issued() && Linked(db)
    ensures r.Err? <==> old(CreateScheduleError(db.doctors, db.workShifts, req)).Some?
    ensures r.Err? ==> (
      && r.error == old(CreateScheduleError(db.doctors, db.workShifts, req)).value
      && db.schedules == old(db.schedules))
    ensures r.Ok? ==>
      && db.schedules == old(db.schedules).Insert(ScheduleRow(req.doctorId, req.scheduleDate.value, DEFAULT_SHIFT, None))
      && r.value == MapToResponse(db, old(db.schedules.next))
  {
    var e := CreateScheduleError(db.doctors, db.workShifts, req);
    if e.Some? {
      return Err(e.value);
    }
    var id := db.schedules.next;
    db.schedules := db.schedules.Insert(ScheduleRow(req.doctorId, req.scheduleDate.value, DEFAULT_SHIFT, None));
    r := Ok(MapToResponse(db, id));
  }

  /** The schedules of a doctor on a day. */
  function OnDay(doctorId: int, date: Date): ScheduleRow -> bool {
    (s: ScheduleRow) => s.doctorId == doctorId && s.scheduleDate == date
  }

  /** Where `createDoctorSchedule` fails, if it does. A null id reaches
      `findById`, whose IllegalArgumentException Spring translates into a
      data-access exception, so the catch block wraps it in a
      RuntimeException; the service's own IllegalArgumentExceptions are
      rethrown as they are. */
  function CreateDoctorScheduleError(schedules: Table<ScheduleRow>, doctors: Table<DoctorRow>,
                                     workShifts: Table<WorkShiftRow>, dto: ScheduleDto)
    : (e: Option<Exception>)
    ensures e.None? <==>
      && dto.doctorId.Some? && dto.doctorId.value in doctors.rows
      && dto.workShiftId.Some? && dto.workShiftId.value in workShifts.rows
      && ScheduleDateOf(dto).Some?
      && forall s :: s in schedules.rows ==> !OnDay(dto.doctorId.value, ScheduleDateOf(dto).value)(schedules.rows[s])
    ensures dto.doctorId.Some? && dto.workShiftId.Some? && e.Some? ==> e == Some(IllegalArgumentException)
  {
    if dto.doctorId.None? then Some(RuntimeException)
    else if dto.doctorId.value !in doctors.rows then Some(IllegalArgumentException)
    else if dto.workShiftId.None? then Some(RuntimeException)
    else if dto.workShiftId.value !in workShifts.rows then Some(IllegalArgumentException)
    else if ScheduleDateOf(dto).None? then Some(IllegalArgumentException)
    else if exists s :: s in schedules.rows && OnDay(dto.doctorId.value, ScheduleDateOf(dto).value)(schedules.rows[s]) then
      Some(IllegalArgumentException)
    else None
  }

  /** `createDoctorSchedule`: at most one schedule per doctor and day. */
  method CreateDoctorSchedule(db: Database, dto: ScheduleDto) returns (r: Result<ScheduleDto>)
    requires db.schedules.Issued() && Linked(db) && OneSchedulePerDay(db.schedules)
    modifies db`schedules
    ensures db.schedules.Issued() && Linked(db) && OneSchedulePerDay(db.schedules)
    ensures r.Err? <==> old(CreateDoctorScheduleError(db.schedules, db.doctors, db.workShifts, dto)).Some?
    ensures r.Err? ==> (
      && r.error == old(CreateDoctorScheduleError(db.schedules, db.doctors, db.workShifts, dto)).value
      && db.schedules == old(db.schedules))
    ensures r.Ok? ==>
      && db.schedules == old(db.schedules).Insert(
           ScheduleRow(dto.doctorId.value, ScheduleDateOf(dto).value, dto.workShiftId.value, dto.notes))
      && r.value == MapToDto(db, old(db.schedules.next))
  {
    var e := CreateDoctorScheduleError(db.schedules, db.doctors, db.workShifts, dto);
    if e.Some? {
      return Err(e.value);
    }
    var id := db.schedules.next;
    var row := ScheduleRow(dto.doctorId.value, ScheduleDateOf(dto).value, dto.workShiftId.value, dto.notes);
    assert forall s :: s in db.schedules.rows ==> !OnDay(row.doctorId, row.scheduleDate)(db.schedules.rows[s]);
    db.schedules := db.schedules.Insert(row);
    r := Ok(MapToDto(db, id));
  }

  /** A schedule that the one-per-day check let through cannot be
      followed by another for the same doctor and day. */
  lemma SecondScheduleRejected(schedules: Table<ScheduleRow>, doctors: Table<DoctorRow>,
                               workShifts: Table<WorkShiftRow>, dto: ScheduleDto, again: ScheduleDto)
    requires schedules.Issued()
    requires CreateDoctorScheduleError(schedules, doctors, workShifts, dto).None?
    requires again.doctorId == dto.doctorId && ScheduleDateOf(again) == ScheduleDateOf(dto)
    requires again.workShiftId.Some?
    ensures var added := schedules.Insert(
              ScheduleRow(dto.doctorId.value, ScheduleDateOf(dto).value, dto.workShiftId.value, dto.notes));
      CreateDoctorScheduleError(added, doctors, workShifts, again) == Some(IllegalArgumentException)
  {
    var added := schedules.Insert(
      ScheduleRow(dto.doctorId.value, ScheduleDateOf(dto).value, dto.workShiftId.value, dto.notes));
    assert OnDay(dto.doctorId.value, ScheduleDateOf(dto).value)(added.rows[schedules.next]);
  }

  /** The filter `getDoctorSchedules` and `countDoctorSchedules` select
      from their optional doctor id and date. */
  function Matching(doctorId: Option<int>, date: Option<Date>): ScheduleRow -> bool {
    (s: ScheduleRow) => (doctorId.None? || s.doctorId == doctorId.value) && (date.None? || s.scheduleDate == date.value)
  }

  /** The lookups both filters make first: an unknown doctor, then an
      unparsable date. */
  function FilterOf(doctors: Table<DoctorRow>, doctorId: Option<int>, date: Option<string>)
    : (r: Result<ScheduleRow -> bool>)
    ensures r.Err? <==>
      (doctorId.Some? && doctorId.value !in doctors.rows) || (date.Some? && ParseIsoDate(date.value).None?)
    ensures doctorId.Some? && doctorId.value !in doctors.rows ==> r == Err(ResourceNotFoundException)
    ensures r.Ok? ==> r.value == Matching(doctorId, if date.Some? then ParseIsoDate(date.value) else None)
  {
    if doctorId.Some? && doctorId.value !in doctors.rows then Err(ResourceNotFoundException)
    else if date.Some? && ParseIsoDate(date.value).None? then Err(DateTimeParseException)
    else Ok(Matching(doctorId, if date.Some? then ParseIsoDate(date.value) else None))
  }

  /** `getDoctorSchedules`: `PageRequest.of` rejects a negative page or a
      size below 1, but the list itself is not paged. */
  function GetDoctorSchedules(db: Database, doctorId: Option<int>, date: Option<string>, page: int, size: int)
    : (r: Result<seq<ScheduleDto>>)
    reads db
    requires db.schedules.Issued() && Linked(db)
    ensures (page < 0 || size < 1) ==> r == Err(IllegalArgumentException)
    ensures r.Ok? <==> page >= 0 && size >= 1 && FilterOf(db.doctors, doctorId, date).Ok?
    ensures r.Ok? ==>
      var ids := db.schedules.Where(FilterOf(db.doctors, doctorId, date).value);
      |r.value| == |ids| && forall i :: 0 <= i < |ids| ==> r.value[i] == MapToDto(db, ids[i])
  {
    if page < 0 || size < 1 then Err(IllegalArgumentException)
    else
      var p :- FilterOf(db.doctors, doctorId, date);
      Ok(DtosOf(db, db.schedules.Where(p)))
  }

  /** `countDoctorSchedules`: the matching rows counted by the repository. */
  function CountDoctorSchedules(db: Database, doctorId: Option<int>, date: Option<string>): (r: Result<nat>)
    reads db
    requires db.schedules.Issued()
    ensures r.Err? <==> FilterOf(db.doctors, doctorId, date).Err?
    ensures r.Ok? ==> r.value == |db.schedules.Where(FilterOf(db.doctors, doctorId, date).value)|
  {
    var p :- FilterOf(db.doctors, doctorId, date);
    Ok(db.schedules.Count(p))
  }

  /** The count and the list agree: for any valid page request, they fail
      together, and the count is the length of the list. */
  lemma CountIsListLength(db: Database, doctorId: Option<int>, date: Option<string>, page: int, size: int)
    requires db.schedules.Issued() && Linked(db) && page >= 0 && size >= 1
    ensures GetDoctorSchedules(db, doctorId, date, page, size).Ok? <==> CountDoctorSchedules(db, doctorId, date).Ok?
    ensures GetDoctorSchedules(db, doctorId, date, page, size).Ok? ==>
      |GetDoctorSchedules(db, doctorId, date, page, size).value| == CountDoctorSchedules(db, doctorId, date).value
  {
  }

  /** The row `updateDoctorSchedule` writes: a new date on shift 1. */
  function Rescheduled(row: ScheduleRow, date: Date): (r: ScheduleRow)
    ensures r.doctorId == row.doctorId && r.notes == row.notes
    ensures r.scheduleDate == date && r.workShiftId == DEFAULT_SHIFT
  {
    row.(scheduleDate := date, workShiftId := DEFAULT_SHIFT)
  }

  /** Where `updateDoctorSchedule` fails, if it does; a null date fails at
      the NOT NULL column. */
  function UpdateError(schedules: Table<ScheduleRow>, workShifts: Table<WorkShiftRow>, id: int, dto: ScheduleDto)
    : (e: Option<Exception>)
    ensures id !in schedules.rows ==> e == Some(ResourceNotFoundException)
    ensures e.None? <==>
      id in schedules.rows && DEFAULT_SHIFT in workShifts.rows
      && TimeRangeError(dto.startTime, dto.endTime).None? && ScheduleDateOf(dto).Some?
  {
    if id !in schedules.rows || DEFAULT_SHIFT !in workShifts.rows then Some(ResourceNotFoundException)
    else if TimeRangeError(dto.startTime, dto.endTime).Some? then TimeRangeError(dto.startTime, dto.endTime)
    else if ScheduleDateOf(dto).None? then Some(DataIntegrityViolationException)
    else None
  }

  /** `updateDoctorSchedule`: changes only the date and the work shift. */
  method UpdateDoctorSchedule(db: Database, id: int, dto: ScheduleDto) returns (r: Result<ScheduleDto>)
    requires Linked(db)
    modifies db`schedules
    ensures Linked(db)
    ensures r.Err? <==> old(UpdateError(db.schedules, db.workShifts, id, dto)).Some?
    ensures r.Err? ==> (
      && r.error == old(UpdateError(db.schedules, db.workShifts, id, dto)).value
      && db.schedules == old(db.schedules))
    ensures r.Ok? ==>
      && db.schedules == old(db.schedules).Put(id, Rescheduled(old(db.schedules.rows)[id], ScheduleDateOf(dto).value))
      && r.value == MapToDto(db, id)
  {
    var e := UpdateError(db.schedules, db.workShifts, id, dto);
    if e.Some? {
      return Err(e.value);
    }
    db.schedules := db.schedules.Put(id, Rescheduled(db.schedules.rows[id], ScheduleDateOf(dto).value));
    r := Ok(MapToDto(db, id));
  }

  /** An update can move a schedule onto a day the doctor already works:
      the one-per-day rule holds only for `createDoctorSchedule`. */
  lemma UpdateMayDuplicateDay()
    ensures var monday := Ymd(2025, 6, 2);
      var t := Table(map[0 := ScheduleRow(7, monday, 1, None), 1 := ScheduleRow(7, Ymd(2025, 6, 3), 1, None)], 2);
      && OneSchedulePerDay(t)
      && !OneSchedulePerDay(t.Put(1, Rescheduled(t.rows[1], monday)))
  {
    var monday := Ymd(2025, 6, 2);
    var t := Table(map[0 := ScheduleRow(7, monday, 1, None), 1 := ScheduleRow(7, Ymd(2025, 6, 3), 1, None)], 2);
    var u := t.Put(1, Rescheduled(t.rows[1], monday));
    assert u.rows[0].scheduleDate == u.rows[1].scheduleDate;
  }

  /** `deleteDoctorSchedule` (transactional): the schedule's slots are
      deleted, then the schedule. A booked slot's appointment blocks the
      slot delete, and the whole call rolls back. */
  method DeleteDoctorSchedule(db: Database, id: int) returns (r: Result<()>)
    requires AppointmentsLinked(db.appointments, db.slots, db.doctors, db.users)
    modifies db`schedules, db`slots
    ensures AppointmentsLinked(db.appointments, db.slots, db.doctors, db.users)
    ensures id !in old(db.schedules.rows) ==> r == Err(ResourceNotFoundException)
    ensures id in old(db.schedules.rows) && Booked(old(db.slots.rows), db.appointments.rows, id) ==>
      r == Err(DataIntegrityViolationException)
    ensures r.Ok? <==> id in old(db.schedules.rows) && !Booked(old(db.slots.rows), db.appointments.rows, id)
    ensures r.Err? ==> db.schedules == old(db.schedules) && db.slots == old(db.slots)
    ensures r.Ok? ==>
      && db.slots == old(db.slots).Delete(OfSchedule(id))
      && db.schedules == old(db.schedules).DeleteKey(id)
      && forall s :: s in db.slots.rows ==> db.slots.rows[s].scheduleId != id
  {
    if id !in db.schedules.rows {
      return Err(ResourceNotFoundException);
    }
    if Booked(db.slots.rows, db.appointments.rows, id) {
      return Err(DataIntegrityViolationException);
    }
    db.slots := db.slots.Delete(OfSchedule(id));
    db.schedules := db.schedules.DeleteKey(id);
    r := Ok(());
  }
}
