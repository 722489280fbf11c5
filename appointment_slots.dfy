/** Generation of a doctor schedule's appointment slots
    (AppointmentSlotServiceImpl).

    A time slot is offered in a schedule when it starts inside the work
    shift (no earlier than the shift start and no later than half an hour
    before the shift end) and does not touch the shift's break. Generation
    first deletes the schedule's old slots, fills an empty time-slot table
    with the default half-hour grid, and then saves one available slot per
    offered time slot, in time-slot key order.
 */
module AppointmentSlots {
  import opened Wrappers
  import opened Dates
  import opened Tables
  import opened ClinicDb

  /** `isWithinWorkshift`; the end bound is `LocalTime.minusMinutes(30)`,
      which wraps around midnight for a shift ending before 00:30. */
  predicate InShift(ts: TimeSlotRow, shift: WorkShiftRow) {
    !(ts.startTime < shift.startTime) && !(ts.startTime > PlusMinutes(shift.endTime, -30))
  }

  /** `isDuringBreak`: false unless both break bounds are set; otherwise the
      slot starts in [breakStart, breakEnd), ends in (breakStart, breakEnd],
      or covers the whole break. */
  predicate DuringBreak(ts: TimeSlotRow, shift: WorkShiftRow) {
    shift.breakStart.Some? && shift.breakEnd.Some? &&
    var bs, be := shift.breakStart.value, shift.breakEnd.value;
    (bs <= ts.startTime < be) || (bs < ts.endTime <= be) || (ts.startTime <= bs && ts.endTime >= be)
  }

  predicate Offered(ts: TimeSlotRow, shift: WorkShiftRow) {
    InShift(ts, shift) && !DuringBreak(ts, shift)
  }

  /** The stream filter of `generateAppointmentSlots`, as a row predicate. */
  function OfferedIn(shift: WorkShiftRow): TimeSlotRow -> bool {
    (ts: TimeSlotRow) => Offered(ts, shift)
  }

  /** For a slot and a break that both run forwards, the three-clause break
      rule is exactly "the two half-open intervals overlap". */
  lemma BreakRuleIsOverlap(ts: TimeSlotRow, shift: WorkShiftRow)
    requires ts.startTime < ts.endTime
    requires shift.breakStart.Some? && shift.breakEnd.Some? && shift.breakStart.value < shift.breakEnd.value
    ensures DuringBreak(ts, shift) <==>
      ts.startTime < shift.breakEnd.value && shift.breakStart.value < ts.endTime
  {
  }

  /** A shift without both break bounds drops nothing for a break. */
  lemma NoBreakNoDrop(ts: TimeSlotRow, shift: WorkShiftRow)
    requires shift.breakStart.None? || shift.breakEnd.None?
    ensures Offered(ts, shift) <==> InShift(ts, shift)
  {
  }

  /** The half-hour grid from 08:00 while the start is before 17:00. */
  function DefaultGrid(): (g: seq<TimeSlotRow>)
    ensures |g| == 18
    ensures g[0].startTime == TimeOf(8, 0) && g[17].endTime == TimeOf(17, 0)
    ensures forall i :: 0 <= i < |g| ==> g[i].endTime == g[i].startTime + 30
    ensures forall i :: 0 <= i < |g| - 1 ==> g[i].endTime == g[i + 1].startTime
  {
    seq(18, i requires 0 <= i < 18 => TimeSlotRow(480 + 30 * i, 510 + 30 * i))
  }

  /** The while loop of `createDefaultTimeSlots`, advancing `currentTime`
      by 30 minutes while it is before 17:00. */
  method DefaultTimeSlots() returns (grid: seq<TimeSlotRow>)
    ensures grid == DefaultGrid()
  {
    var endOfDay := TimeOf(17, 0);
    var current: Minute := TimeOf(8, 0);
    grid := [];
    while current < endOfDay
      invariant current == 480 + 30 * |grid| && current <= endOfDay
      invariant forall i :: 0 <= i < |grid| ==> grid[i] == TimeSlotRow(480 + 30 * i, 510 + 30 * i)
      decreases endOfDay - current
    {
      var slotEnd := PlusMinutes(current, 30);
      grid := grid + [TimeSlotRow(current, slotEnd)];
      current := slotEnd;
    }
  }

  /** `createDefaultTimeSlots`: the grid, saved with `saveAll`. */
  method CreateDefaultTimeSlots(db: Database)
    requires db.timeSlots.Issued()
    modifies db`timeSlots
    ensures db.timeSlots.Issued()
    ensures db.timeSlots == old(db.timeSlots).InsertAll(DefaultGrid())
  {
    var grid := DefaultTimeSlots();
    db.timeSlots := db.timeSlots.InsertAll(grid);
  }

  /** The new slot rows of a schedule, one per offered time slot. */
  function NewSlots(scheduleId: int, doctorId: int, timeSlotIds: seq<int>): (r: seq<SlotRow>)
    ensures |r| == |timeSlotIds|
    ensures forall i :: 0 <= i < |r| ==> r[i] == SlotRow(scheduleId, timeSlotIds[i], doctorId, true)
  {
    seq(|timeSlotIds|, i requires 0 <= i < |timeSlotIds| => SlotRow(scheduleId, timeSlotIds[i], doctorId, true))
  }

  datatype GenerateRequest = GenerateRequest(
    doctorScheduleId: int, doctorId: int, scheduleDate: Option<string>, workShiftId: int)

  /** The time slots `generateAppointmentSlots` works from: the table, or the
      default grid when the table is empty. */
  function TimeSlotsUsed(t: Table<TimeSlotRow>): Table<TimeSlotRow> {
    if t.rows == map[] then t.InsertAll(DefaultGrid()) else t
  }

  /** The schedule, doctor and work shift of a generation request are stored. */
  predicate KnownIds(schedules: map<int, ScheduleRow>, doctors: map<int, DoctorRow>, shifts: map<int, WorkShiftRow>,
                     req: GenerateRequest) {
    req.doctorScheduleId in schedules && req.doctorId in doctors && req.workShiftId in shifts
  }

  /** `generateAppointmentSlots`. The result lists the keys of the saved
      slots. The method is transactional: every failure leaves the tables
      as they were. */
  method GenerateAppointmentSlots(db: Database, req: GenerateRequest) returns (r: Result<seq<int>>)
    requires db.slots.Issued() && db.timeSlots.Issued() && AppointmentsLinked(db.appointments, db.slots, db.doctors, db.users)
    modifies db`slots, db`timeSlots
    ensures db.slots.Issued() && db.timeSlots.Issued() && AppointmentsLinked(db.appointments, db.slots, db.doctors, db.users)
    ensures req.doctorScheduleId !in old(db.schedules.rows) ==> r == Err(RuntimeException)
    ensures req.doctorScheduleId in old(db.schedules.rows) && req.doctorId !in old(db.doctors.rows) ==> r == Err(RuntimeException)
    ensures (req.doctorScheduleId in old(db.schedules.rows) && req.doctorId in old(db.doctors.rows)
             && req.workShiftId !in old(db.workShifts.rows)) ==> r == Err(RuntimeException)
    ensures KnownIds(old(db.schedules.rows), old(db.doctors.rows), old(db.workShifts.rows), req) && req.scheduleDate.None? ==>
      r == Err(NullPointerException)
    ensures KnownIds(old(db.schedules.rows), old(db.doctors.rows), old(db.workShifts.rows), req) && req.scheduleDate.Some?
            && ParseIsoDate(req.scheduleDate.value).None? ==>
      r == Err(DateTimeParseException)
    ensures KnownIds(old(db.schedules.rows), old(db.doctors.rows), old(db.workShifts.rows), req) && req.scheduleDate.Some?
            && ParseIsoDate(req.scheduleDate.value).Some?
            && Booked(old(db.slots.rows), old(db.appointments.rows), req.doctorScheduleId) ==>
      r == Err(DataIntegrityViolationException)
    ensures r.Err? ==> db.slots == old(db.slots) && db.timeSlots == old(db.timeSlots)
    ensures r.Ok? <==>
      req.doctorScheduleId in old(db.schedules.rows) && req.doctorId in old(db.doctors.rows)
      && req.workShiftId in old(db.workShifts.rows)
      && req.scheduleDate.Some? && ParseIsoDate(req.scheduleDate.value).Some?
      && !Booked(old(db.slots.rows), old(db.appointments.rows), req.doctorScheduleId)
    ensures r.Ok? ==>
      var offered := db.timeSlots.Where(OfferedIn(old(db.workShifts.rows)[req.workShiftId]));
      && db.timeSlots == TimeSlotsUsed(old(db.timeSlots))
      && db.slots == old(db.slots).Delete(OfSchedule(req.doctorScheduleId))
                       .InsertAll(NewSlots(req.doctorScheduleId, req.doctorId, offered))
      && |r.value| == |offered|
      && (forall i :: 0 <= i < |offered| ==> r.value[i] == old(db.slots.next) + i)
  {
    if req.doctorScheduleId !in db.schedules.rows || req.doctorId !in db.doctors.rows
       || req.workShiftId !in db.workShifts.rows {
      return Err(RuntimeException);
    }
    var shift := db.workShifts.rows[req.workShiftId];
    if req.scheduleDate.None? {
      return Err(NullPointerException);
    }
    if ParseIsoDate(req.scheduleDate.value).None? {
      return Err(DateTimeParseException);
    }
    if Booked(db.slots.rows, db.appointments.rows, req.doctorScheduleId) {
      // The appointments' foreign key blocks `deleteByDoctorScheduleId`.
      return Err(DataIntegrityViolationException);
    }
    db.slots := db.slots.Delete(OfSchedule(req.doctorScheduleId));
    if db.timeSlots.rows == map[] {
      CreateDefaultTimeSlots(db);
    }
    var offered := db.timeSlots.Where(OfferedIn(shift));
    var saved := SaveSlots(db, req.doctorScheduleId, req.doctorId, offered);
    r := Ok(saved);
  }

  /** The saving loop of `generateAppointmentSlots`: one available slot per
      time slot, appended to `createdSlots` in order. */
  method SaveSlots(db: Database, scheduleId: int, doctorId: int, timeSlotIds: seq<int>) returns (saved: seq<int>)
    requires db.slots.Issued() && AppointmentsLinked(db.appointments, db.slots, db.doctors, db.users)
    modifies db`slots
    ensures db.slots.Issued() && AppointmentsLinked(db.appointments, db.slots, db.doctors, db.users)
    ensures |saved| == |timeSlotIds| && forall i :: 0 <= i < |saved| ==> saved[i] == old(db.slots.next) + i
    ensures db.slots == old(db.slots).InsertAll(NewSlots(scheduleId, doctorId, timeSlotIds))
  {
    ghost var base := db.slots;
    var start := db.slots.next;
    saved := [];
    var k := 0;
    while k < |timeSlotIds|
      invariant 0 <= k <= |timeSlotIds|
      invariant |saved| == k && forall i :: 0 <= i < k ==> saved[i] == start + i
      invariant db.slots == base.InsertAll(NewSlots(scheduleId, doctorId, timeSlotIds[..k]))
      invariant db.slots.Issued() && AppointmentsLinked(db.appointments, db.slots, db.doctors, db.users)
    {
      var row := SlotRow(scheduleId, timeSlotIds[k], doctorId, true);
      base.InsertAllSnoc(NewSlots(scheduleId, doctorId, timeSlotIds[..k]), row);
      assert NewSlots(scheduleId, doctorId, timeSlotIds[..k + 1])
        == NewSlots(scheduleId, doctorId, timeSlotIds[..k]) + [row];
      saved := saved + [db.slots.next];
      db.slots := db.slots.Insert(row);
      k := k + 1;
    }
    assert timeSlotIds[..k] == timeSlotIds;
  }

  /** The slots of a doctor on a date: the slot's doctor and the date of its
      schedule. */
  function OnDoctorDay(schedules: map<int, ScheduleRow>, doctorId: int, date: Date): SlotRow -> bool {
    (s: SlotRow) => s.doctorId == doctorId && s.scheduleId in schedules && schedules[s.scheduleId].scheduleDate == date
  }

  /** `getSlotsByDoctorAndDate`: every failure (an unparsable date, an
      unknown doctor) is caught and gives the empty list. */
  function SlotsByDoctorAndDate(db: Database, doctorId: int, date: string): (r: seq<int>)
    reads db
    requires db.slots.Issued()
    ensures ParseIsoDate(date).None? || doctorId !in db.doctors.rows ==> r == []
    ensures forall s :: s in r <==>
      ParseIsoDate(date).Some? && doctorId in db.doctors.rows && s in db.slots.rows
      && db.slots.rows[s].doctorId == doctorId && db.slots.rows[s].scheduleId in db.schedules.rows
      && db.schedules.rows[db.slots.rows[s].scheduleId].scheduleDate == ParseIsoDate(date).value
  {
    match ParseIsoDate(date)
    case None => []
    case Some(d) =>
      if doctorId !in db.doctors.rows then [] else db.slots.Where(OnDoctorDay(db.schedules.rows, doctorId, d))
  }
}
