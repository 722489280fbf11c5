/** Booking and cancellation of appointment slots (AppointmentServiceImpl).

    A booking takes an available slot, creates the appointment in status
    "Chờ xác nhận" and marks the slot unavailable, so the slot cannot be
    booked again; cancelling the appointment ("Đã hủy") frees the slot.
    An anonymous appointment has no patient, and its response shows the
    patient as "Ẩn danh".
 */
module Appointments {
  import opened Wrappers
  import opened Text
  import opened Dates
  import opened Tables
  import opened ClinicDb

  const AWAITING_CONFIRMATION := "Chờ xác nhận"
  const CANCELLED := "Đã hủy"
  const ANONYMOUS := "Ẩn danh"

  datatype AppointmentRequest = AppointmentRequest(
    patientId: Option<int>,
    doctorId: int,
    appointmentSlotId: int,
    appointmentType: Option<string>,
    isAnonymous: Option<bool>,
    symptoms: Option<string>,
    notes: Option<string>)

  /** `AppointmentResponse`; the date and times are the schedule's date and
      the time slot's bounds (their `toString` is not modelled). */
  datatype AppointmentResponse = AppointmentResponse(
    id: int,
    patientId: Option<int>,
    patientName: Option<string>,
    doctorId: int,
    doctorName: Option<string>,
    appointmentSlotId: int,
    appointmentType: string,
    status: Option<string>,
    isAnonymous: Option<bool>,
    symptoms: Option<string>,
    notes: Option<string>,
    cancellationReason: Option<string>,
    appointmentDate: Option<Date>,
    startTime: Option<Minute>,
    endTime: Option<Minute>)

  /** The tables `mapToResponse` reads are consistent. */
  predicate Linked(db: Database)
    reads db
  {
    AppointmentsLinked(db.appointments, db.slots, db.doctors, db.users)
    && DoctorsAreUsers(db.doctors, db.users)
  }

  /** `mapToResponse`. Without a patient the response has no patient id
      and the name "Ẩn danh"; the date and times are absent when the slot's
      schedule or time slot is. */
  function MapToResponse(db: Database, id: int): (r: AppointmentResponse)
    reads db
    requires Linked(db) && id in db.appointments.rows
    ensures var a := db.appointments.rows[id];
      && r.id == id && r.appointmentSlotId == a.slotId && r.doctorId == a.doctorId
      && (a.patientId.None? ==> r.patientId.None? && r.patientName == Some(ANONYMOUS))
      && (a.patientId.Some? ==> r.patientId == a.patientId && r.patientName == db.users.rows[a.patientId.value].fullName)
      && r.doctorName == db.users.rows[a.doctorId].fullName
      && r.status == a.status && r.cancellationReason == a.cancellationReason
  {
    var a := db.appointments.rows[id];
    var slot := db.slots.rows[a.slotId];
    var date := if slot.scheduleId in db.schedules.rows then Some(db.schedules.rows[slot.scheduleId].scheduleDate) else None;
    var ts := if slot.timeSlotId in db.timeSlots.rows then Some(db.timeSlots.rows[slot.timeSlotId]) else None;
    AppointmentResponse(
      id,
      a.patientId,
      if a.patientId.Some? then db.users.rows[a.patientId.value].fullName else Some(ANONYMOUS),
      a.doctorId,
      db.users.rows[a.doctorId].fullName,
      a.slotId,
      a.appointmentType,
      a.status,
      a.isAnonymous,
      a.symptoms,
      a.notes,
      a.cancellationReason,
      date,
      if ts.Some? then Some(ts.value.startTime) else None,
      if ts.Some? then Some(ts.value.endTime) else None)
  }

  /** Where the first check of `createAppointment` fails, if one does. The
      patient is looked up only when an id is given and the request is not
      anonymous; a missing anonymity flag with a patient id fails when
      `getIsAnonymous()` is unboxed. */
  function BookingError(slots: Table<SlotRow>, users: Table<UserRow>, doctors: Table<DoctorRow>,
                        req: AppointmentRequest): (e: Option<Exception>)
    ensures req.appointmentSlotId !in slots.rows ==> e == Some(ResourceNotFoundException)
    ensures req.appointmentSlotId in slots.rows && !slots.rows[req.appointmentSlotId].isAvailable ==>
      e == Some(IllegalStateException)
    ensures e.None? ==>
      && req.appointmentSlotId in slots.rows && slots.rows[req.appointmentSlotId].isAvailable
      && req.doctorId in doctors.rows && req.appointmentType.Some?
      && (BookedPatient(req).Some? ==> BookedPatient(req).value in users.rows)
  {
    if req.appointmentSlotId !in slots.rows then Some(ResourceNotFoundException)
    else if !slots.rows[req.appointmentSlotId].isAvailable then Some(IllegalStateException)
    else if req.patientId.Some? && req.isAnonymous.None? then Some(NullPointerException)
    else if req.patientId.Some? && req.isAnonymous == Some(false) && req.patientId.value !in users.rows then
      Some(ResourceNotFoundException)
    else if req.doctorId !in doctors.rows then Some(ResourceNotFoundException)
    else if req.appointmentType.None? then Some(DataIntegrityViolationException)  // NOT NULL column
    else None
  }

  /** The patient of the new appointment: the looked-up user, or none. */
  function BookedPatient(req: AppointmentRequest): Option<int> {
    if req.patientId.Some? && req.isAnonymous == Some(false) then req.patientId else None
  }

  /** The slot table after a booking of `slotId`. */
  function SlotsAfterBooking(slots: Table<SlotRow>, slotId: int): (t: Table<SlotRow>)
    requires slotId in slots.rows
    ensures t.rows.Keys == slots.rows.Keys && !t.rows[slotId].isAvailable
    ensures forall s :: s in slots.rows && s != slotId ==> t.rows[s] == slots.rows[s]
  {
    slots.Put(slotId, slots.rows[slotId].(isAvailable := false))
  }

  /** A booked slot cannot be booked again: any request for it, by anyone,
      fails with IllegalStateException. */
  lemma SlotNotBookedTwice(slots: Table<SlotRow>, users: Table<UserRow>, doctors: Table<DoctorRow>,
                           req: AppointmentRequest, again: AppointmentRequest)
    requires BookingError(slots, users, doctors, req).None?
    requires again.appointmentSlotId == req.appointmentSlotId
    ensures BookingError(SlotsAfterBooking(slots, req.appointmentSlotId), users, doctors, again)
      == Some(IllegalStateException)
  {
  }

  /** Cancelling the appointment reopens its slot: the same request can
      then be booked again. */
  lemma CancelReopensSlot(slots: Table<SlotRow>, users: Table<UserRow>, doctors: Table<DoctorRow>,
                          req: AppointmentRequest)
    requires BookingError(slots, users, doctors, req).None?
    ensures var booked := SlotsAfterBooking(slots, req.appointmentSlotId);
      BookingError(SlotsAfterStatus(booked, req.appointmentSlotId, Some(CANCELLED)), users, doctors, req).None?
  {
  }

  /** A status other than "Đã hủy" keeps the booked slot closed. */
  lemma OtherStatusKeepsSlotClosed(slots: Table<SlotRow>, users: Table<UserRow>, doctors: Table<DoctorRow>,
                                   req: AppointmentRequest, status: Option<string>)
    requires BookingError(slots, users, doctors, req).None? && status != Some(CANCELLED)
    ensures var booked := SlotsAfterBooking(slots, req.appointmentSlotId);
      BookingError(SlotsAfterStatus(booked, req.appointmentSlotId, status), users, doctors, req)
      == Some(IllegalStateException)
  {
  }

  /** `createAppointment`. Transactional: a failure changes nothing. */
  method CreateAppointment(db: Database, req: AppointmentRequest) returns (r: Result<AppointmentResponse>)
    requires db.appointments.Issued() && Linked(db)
    modifies db`appointments, db`slots
    ensures db.appointments.Issued() && Linked(db)
    ensures r.Err? <==> old(BookingError(db.slots, db.users, db.doctors, req)).Some?
    ensures r.Err? ==> (
      && r.error == old(BookingError(db.slots, db.users, db.doctors, req)).value
      && db.appointments == old(db.appointments) && db.slots == old(db.slots))
    ensures r.Ok? ==>
      && db.appointments == old(db.appointments).Insert(AppointmentRow(
           BookedPatient(req), req.doctorId, req.appointmentSlotId, req.appointmentType.value,
           Some(AWAITING_CONFIRMATION), req.isAnonymous, req.symptoms, req.notes, None))
      && db.slots == SlotsAfterBooking(old(db.slots), req.appointmentSlotId)
      && r.value == MapToResponse(db, old(db.appointments.next))
  {
    var e := BookingError(db.slots, db.users, db.doctors, req);
    if e.Some? {
      return Err(e.value);
    }
    var row := AppointmentRow(
      BookedPatient(req), req.doctorId, req.appointmentSlotId, req.appointmentType.value,
      Some(AWAITING_CONFIRMATION), req.isAnonymous, req.symptoms, req.notes, None);
    var id := db.appointments.next;
    db.appointments := db.appointments.Insert(row);
    db.slots := SlotsAfterBooking(db.slots, req.appointmentSlotId);
    r := Ok(MapToResponse(db, id));
  }

  /** The slot table after an appointment changes to `status`: a
      cancellation frees the appointment's slot, anything else leaves the
      slots alone. */
  function SlotsAfterStatus(slots: Table<SlotRow>, slotId: int, status: Option<string>): (t: Table<SlotRow>)
    requires slotId in slots.rows
    ensures t.rows.Keys == slots.rows.Keys && t.next == slots.next
    ensures status == Some(CANCELLED) ==> t.rows[slotId].isAvailable
    ensures status != Some(CANCELLED) ==> t == slots
    ensures forall s :: s in slots.rows && s != slotId ==> t.rows[s] == slots.rows[s]
  {
    if status == Some(CANCELLED) then slots.Put(slotId, slots.rows[slotId].(isAvailable := true)) else slots
  }

  /** `updateStatus`: sets the status; "Đã hủy" frees the slot. */
  method UpdateStatus(db: Database, id: int, status: Option<string>) returns (r: Result<AppointmentResponse>)
    requires Linked(db)
    modifies db`appointments, db`slots
    ensures Linked(db)
    ensures r.Err? <==> id !in old(db.appointments.rows)
    ensures r.Err? ==> (
      && r.error == ResourceNotFoundException
      && db.appointments == old(db.appointments) && db.slots == old(db.slots))
    ensures r.Ok? ==>
      var a := old(db.appointments.rows)[id];
      && db.appointments == old(db.appointments).Put(id, a.(status := status))
      && db.slots == SlotsAfterStatus(old(db.slots), a.slotId, status)
      && r.value == MapToResponse(db, id)
  {
    if id !in db.appointments.rows {
      return Err(ResourceNotFoundException);
    }
    var a := db.appointments.rows[id];
    db.slots := SlotsAfterStatus(db.slots, a.slotId, status);
    db.appointments := db.appointments.Put(id, a.(status := status));
    r := Ok(MapToResponse(db, id));
  }

  /** The cancellation reason `updateAppointmentStatus` stores: the given
      one only for a cancellation with a non-empty reason. */
  function ReasonAfter(old_: Option<string>, status: Option<string>, reason: Option<string>): (r: Option<string>)
    ensures r != old_ ==> status == Some(CANCELLED) && reason.Some? && reason.value != "" && r == reason
    ensures status == Some(CANCELLED) && reason.Some? && reason.value != "" ==> r == reason
  {
    if status == Some(CANCELLED) && reason.Some? && reason.value != "" then reason else old_
  }

  /** `updateAppointmentStatus`: as `updateStatus`, and a cancellation
      with a non-empty reason also stores the reason. */
  method UpdateAppointmentStatus(db: Database, id: int, status: Option<string>, reason: Option<string>)
    returns (r: Result<AppointmentResponse>)
    requires Linked(db)
    modifies db`appointments, db`slots
    ensures Linked(db)
    ensures r.Err? <==> id !in old(db.appointments.rows)
    ensures r.Err? ==> (
      && r.error == ResourceNotFoundException
      && db.appointments == old(db.appointments) && db.slots == old(db.slots))
    ensures r.Ok? ==>
      var a := old(db.appointments.rows)[id];
      && db.appointments == old(db.appointments).Put(id,
           a.(status := status, cancellationReason := ReasonAfter(a.cancellationReason, status, reason)))
      && db.slots == SlotsAfterStatus(old(db.slots), a.slotId, status)
      && r.value == MapToResponse(db, id)
  {
    if id !in db.appointments.rows {
      return Err(ResourceNotFoundException);
    }
    var a := db.appointments.rows[id];
    var updated := a.(status := status);
    if status == Some(CANCELLED) && reason.Some? && reason.value != "" {
      updated := updated.(cancellationReason := reason);
    }
    db.slots := SlotsAfterStatus(db.slots, a.slotId, status);
    db.appointments := db.appointments.Put(id, updated);
    r := Ok(MapToResponse(db, id));
  }

  /** The `limit` of `getAppointmentsForManager`: the page is cut to its
      first `limit` items only when 0 < limit < page size. */
  function ApplyLimit<T>(page: seq<T>, limit: int): (r: seq<T>)
    ensures r <= page
    ensures 0 < limit < |page| ==> |r| == limit
    ensures !(0 < limit < |page|) ==> r == page
  {
    if 0 < limit && limit < |page| then page[..limit] else page
  }

  /** Applying the same limit twice changes nothing more. */
  lemma ApplyLimitIdempotent<T>(page: seq<T>, limit: int)
    ensures ApplyLimit(ApplyLimit(page, limit), limit) == ApplyLimit(page, limit)
  {
  }
}
