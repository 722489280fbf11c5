/** The clinic's relational tables, shared by the backend services.

    Every JPA repository is a `Table` (rows by primary key, and the table's
    identity counter) held in one `Database` object. A doctor profile shares
    its key with its user (`doctor_id` is the user's id). The integrity
    rules are predicates over the tables; each service method states the
    ones of the tables it changes and keeps them.

    Only the columns the services read or write are kept; a nullable
    column is an `Option`. A `NOT NULL` column that the services may leave
    unset is also an `Option` here, so that the failing insert can be
    modelled (as a `DataIntegrityViolationException`).
 */
module ClinicDb {
  import opened Wrappers
  import opened Dates
  import opened Tables

  datatype UserRow = UserRow(
    username: string,
    password: string,
    fullName: Option<string>,
    email: Option<string>,
    phoneNumber: Option<string>,
    gender: Option<string>,
    address: Option<string>,
    dateOfBirth: Option<Date>,
    isActive: Option<bool>,
    roleId: Option<int>)

  datatype RoleRow = RoleRow(name: string)

  /** `DoctorProfile`; its key is the doctor's user id. */
  datatype DoctorRow = DoctorRow(specialty: string)

  datatype WorkShiftRow = WorkShiftRow(
    startTime: Minute, endTime: Minute, breakStart: Option<Minute>, breakEnd: Option<Minute>)

  datatype TimeSlotRow = TimeSlotRow(startTime: Minute, endTime: Minute)

  /** `DoctorSchedule`: one working day of one doctor. */
  datatype ScheduleRow = ScheduleRow(
    doctorId: int, scheduleDate: Date, workShiftId: int, notes: Option<string>)

  /** `AppointmentSlot`: one bookable time slot of a schedule. */
  datatype SlotRow = SlotRow(scheduleId: int, timeSlotId: int, doctorId: int, isAvailable: bool)

  datatype AppointmentRow = AppointmentRow(
    patientId: Option<int>,
    doctorId: int,
    slotId: int,
    appointmentType: string,
    status: Option<string>,
    isAnonymous: Option<bool>,
    symptoms: Option<string>,
    notes: Option<string>,
    cancellationReason: Option<string>)

  /** `TestType`, with the price in whole currency units. */
  datatype TestTypeRow = TestTypeRow(name: string, testGroup: Option<string>, price: int)

  /** The statuses of a lab-test order that the services set or test. */
  const CREATED := "Đã tạo"
  const AWAITING_PAYMENT := "Chờ thanh toán"
  const AWAITING_SAMPLE := "Chờ lấy mẫu"
  const HAS_RESULT := "Có kết quả"

  datatype LabOrderRow = LabOrderRow(
    testTypeId: int,
    patientId: int,
    doctorId: Option<int>,
    orderDate: Date,
    resultExpectedDate: Option<DateTime>,
    status: Option<string>,
    medicalRecordId: Option<int>,
    notes: Option<string>,
    createdAt: DateTime)

  datatype LabResultRow = LabResultRow(
    orderId: int,
    resultDate: Option<DateTime>,
    resultData: string,
    resultSummary: Option<string>,
    attachmentsPath: Option<string>,
    notes: Option<string>,
    enteredByUserId: Option<int>,
    createdAt: DateTime,
    updatedAt: DateTime)

  /** `MedicalRecordLabResult`: the association of a record and a result. */
  datatype RecordLabRow = RecordLabRow(
    recordId: int, resultId: int, interpretation: Option<string>, createdAt: DateTime)

  datatype PaymentRow = PaymentRow(
    patientId: int,
    totalAmount: int,
    paymentDate: Option<DateTime>,
    paymentMethod: Option<string>,
    status: Option<string>,
    transactionId: Option<string>,
    transactionRef: Option<string>,
    transactionDate: Option<string>,
    bankCode: Option<string>,
    cardType: Option<string>,
    responseCode: Option<string>,
    secureHash: Option<string>,
    notes: Option<string>,
    invoiceGenerated: bool,
    createdAt: Option<DateTime>)

  datatype PaymentOrderRow = PaymentOrderRow(paymentId: int, labOrderId: int, createdAt: Option<DateTime>)

  /** The clinical fields a medical record shares with its DTO. */
  datatype Clinical = Clinical(
    visitDate: Option<Date>,
    visitType: Option<string>,
    recordStatus: Option<string>,
    symptoms: Option<string>,
    lymphNodes: Option<string>,
    bloodPressure: Option<string>,
    generalCondition: Option<string>,
    diagnosis: Option<string>,
    protocolStartDate: Option<Date>,
    whoClinicalStage: Option<string>,
    opportunisticInfections: Option<string>,
    protocolNotes: Option<string>,
    riskFactors: Option<string>,
    nextAppointmentDate: Option<Date>,
    notes: Option<string>)

  /** `MedicalRecord`; `visit_date` is NOT NULL, so a stored record has
      `clinical.visitDate.Some?` (checked by the services before saving). */
  datatype MedicalRecordRow = MedicalRecordRow(
    patientId: int, doctorId: Option<int>, protocolId: Option<int>, clinical: Clinical,
    createdAt: DateTime, updatedAt: DateTime)

  datatype PrescriptionRow = PrescriptionRow(
    medicalRecordId: int,
    patientId: int,
    doctorId: int,
    protocolId: Option<int>,
    treatmentStartDate: Date,
    treatmentEndDate: Date,
    doctorNotes: Option<string>,
    protocolNotes: Option<string>,
    status: Option<string>,
    createdAt: DateTime)

  /** The four dose columns of a prescription item. */
  datatype Doses = Doses(morning: Option<int>, noon: Option<int>, afternoon: Option<int>, evening: Option<int>)

  datatype ItemRow = ItemRow(
    prescriptionId: int,
    medicationId: int,
    doses: Doses,
    unit: Option<string>,
    usageInstructions: Option<string>,
    specialNotes: Option<string>,
    createdAt: DateTime,
    updatedAt: DateTime)

  datatype MedicationRow = MedicationRow(name: string, isActive: Option<bool>)

  datatype TimeOfDay = MORNING | NOON | AFTERNOON | EVENING

  datatype MedReminderRow = MedReminderRow(
    itemId: int,
    patientId: int,
    reminderType: TimeOfDay,
    reminderTime: Minute,
    doseAmount: int,
    startDate: Date,
    endDate: Date,
    isActive: Option<bool>,
    createdAt: DateTime)

  datatype ReminderRow = ReminderRow(
    patientId: int,
    reminderType: string,
    prescriptionId: Option<int>,
    medicalRecordId: Option<int>,
    title: string,
    message: Option<string>,
    startDate: Date,
    endDate: Option<Date>,
    reminderTime: Option<Minute>,
    reminderDate: Option<Date>,
    daysBeforeAppointment: Option<int>,
    isActive: Option<bool>,
    createdAt: Option<DateTime>,
    updatedAt: Option<DateTime>)

  datatype ProtocolRow = ProtocolRow(
    name: Option<string>, code: Option<string>, durationDays: Option<int>,
    createdAt: Option<DateTime>, updatedAt: Option<DateTime>)

  datatype ProtocolMedicationRow = ProtocolMedicationRow(protocolId: int, medicationId: int, notes: Option<string>)

  class Database {
    var users: Table<UserRow>
    var roles: Table<RoleRow>
    var doctors: Table<DoctorRow>
    var workShifts: Table<WorkShiftRow>
    var timeSlots: Table<TimeSlotRow>
    var schedules: Table<ScheduleRow>
    var slots: Table<SlotRow>
    var appointments: Table<AppointmentRow>
    var testTypes: Table<TestTypeRow>
    var labOrders: Table<LabOrderRow>
    var labResults: Table<LabResultRow>
    var recordLabs: Table<RecordLabRow>
    var payments: Table<PaymentRow>
    var paymentOrders: Table<PaymentOrderRow>
    var records: Table<MedicalRecordRow>
    var prescriptions: Table<PrescriptionRow>
    var items: Table<ItemRow>
    var medications: Table<MedicationRow>
    var medReminders: Table<MedReminderRow>
    var reminders: Table<ReminderRow>
    var protocols: Table<ProtocolRow>
    var protocolMedications: Table<ProtocolMedicationRow>
  }

  /** Every role a user names is stored (a foreign key). */
  predicate RolesKnown(users: Table<UserRow>, roles: Table<RoleRow>) {
    forall k :: k in users.rows && users.rows[k].roleId.Some? ==> users.rows[k].roleId.value in roles.rows
  }

  /** A doctor profile belongs to a stored user. */
  predicate DoctorsAreUsers(doctors: Table<DoctorRow>, users: Table<UserRow>) {
    forall d :: d in doctors.rows ==> d in users.rows
  }

  /** The foreign keys of a schedule: its doctor and its work shift are
      stored. */
  predicate SchedulesLinked(schedules: Table<ScheduleRow>, doctors: Table<DoctorRow>, workShifts: Table<WorkShiftRow>) {
    forall s :: s in schedules.rows ==>
      schedules.rows[s].doctorId in doctors.rows && schedules.rows[s].workShiftId in workShifts.rows
  }

  /** The foreign keys of an appointment: its slot, its doctor and its
      patient, when it has one, are stored. */
  predicate AppointmentsLinked(appointments: Table<AppointmentRow>, slots: Table<SlotRow>,
                               doctors: Table<DoctorRow>, users: Table<UserRow>) {
    forall a :: a in appointments.rows ==>
      var row := appointments.rows[a];
      row.slotId in slots.rows && row.doctorId in doctors.rows
      && (row.patientId.Some? ==> row.patientId.value in users.rows)
  }

  /** The slot rows of a schedule. */
  function OfSchedule(scheduleId: int): SlotRow -> bool {
    (s: SlotRow) => s.scheduleId == scheduleId
  }

  /** Some appointment points at a slot of the schedule. */
  predicate Booked(slots: map<int, SlotRow>, appointments: map<int, AppointmentRow>, scheduleId: int) {
    exists a :: a in appointments && appointments[a].slotId in slots
      && slots[appointments[a].slotId].scheduleId == scheduleId
  }

  /** The foreign keys of a lab-test order: its test type and its patient
      are stored. */
  predicate LabOrdersLinked(labOrders: Table<LabOrderRow>, testTypes: Table<TestTypeRow>, users: Table<UserRow>) {
    forall o :: o in labOrders.rows ==>
      labOrders.rows[o].testTypeId in testTypes.rows && labOrders.rows[o].patientId in users.rows
  }

  /** The foreign keys of a payment's order link: its payment and its lab
      order are stored. */
  predicate PaymentOrdersLinked(links: Table<PaymentOrderRow>, payments: Table<PaymentRow>, labOrders: Table<LabOrderRow>) {
    forall l :: l in links.rows ==> links.rows[l].paymentId in payments.rows && links.rows[l].labOrderId in labOrders.rows
  }

  /** The foreign keys of a lab result: its order is stored, and so is the
      user who entered it, when there is one. */
  predicate ResultsLinked(results: Table<LabResultRow>, labOrders: Table<LabOrderRow>, users: Table<UserRow>) {
    forall r :: r in results.rows ==>
      results.rows[r].orderId in labOrders.rows
      && (results.rows[r].enteredByUserId.Some? ==> results.rows[r].enteredByUserId.value in users.rows)
  }

  /** The foreign keys of a record's lab-result association: its record
      and its result are stored. */
  predicate RecordLabsLinked(links: Table<RecordLabRow>, records: Table<MedicalRecordRow>, results: Table<LabResultRow>) {
    forall l :: l in links.rows ==> links.rows[l].recordId in records.rows && links.rows[l].resultId in results.rows
  }

  /** The foreign keys of a medical record: its patient, its doctor and
      its protocol, when it has them, are stored; its visit date is set
      (`visit_date` is NOT NULL). */
  predicate RecordLinked(row: MedicalRecordRow, users: Table<UserRow>, protocols: Table<ProtocolRow>) {
    && row.patientId in users.rows
    && (row.doctorId.Some? ==> row.doctorId.value in users.rows)
    && (row.protocolId.Some? ==> row.protocolId.value in protocols.rows)
    && row.clinical.visitDate.Some?
  }

  predicate RecordsLinked(records: Table<MedicalRecordRow>, users: Table<UserRow>, protocols: Table<ProtocolRow>) {
    forall k :: k in records.rows ==> RecordLinked(records.rows[k], users, protocols)
  }

  /** Every prescription belongs to a stored medical record. */
  predicate PrescriptionsLinked(prescriptions: Table<PrescriptionRow>, records: Table<MedicalRecordRow>) {
    forall p :: p in prescriptions.rows ==> prescriptions.rows[p].medicalRecordId in records.rows
  }

  /** A reminder's record and prescription, when it names them, are
      stored. */
  predicate RemindersLinked(reminders: Table<ReminderRow>, records: Table<MedicalRecordRow>,
                            prescriptions: Table<PrescriptionRow>) {
    forall r :: r in reminders.rows ==>
      (reminders.rows[r].medicalRecordId.Some? ==> reminders.rows[r].medicalRecordId.value in records.rows)
      && (reminders.rows[r].prescriptionId.Some? ==> reminders.rows[r].prescriptionId.value in prescriptions.rows)
  }

  /** Every medication reminder belongs to a stored prescription item. */
  predicate MedRemindersLinked(medReminders: Table<MedReminderRow>, items: Table<ItemRow>) {
    forall m :: m in medReminders.rows ==> medReminders.rows[m].itemId in items.rows
  }

  /** Every prescription item belongs to a stored prescription. */
  predicate ItemsLinked(items: Table<ItemRow>, prescriptions: Table<PrescriptionRow>) {
    forall i :: i in items.rows ==> items.rows[i].prescriptionId in prescriptions.rows
  }

  /** `lab_test_order_id` is unique among results. */
  predicate OneResultPerOrder(results: Table<LabResultRow>) {
    forall r, r' :: r in results.rows && r' in results.rows ==>
      results.rows[r].orderId == results.rows[r'].orderId ==> r == r'
  }

  /** The pair (`medical_record_id`, `lab_test_result_id`) is unique among
      associations. */
  predicate UniquePairs(links: Table<RecordLabRow>) {
    forall x, y :: x in links.rows && y in links.rows ==>
      (links.rows[x].recordId == links.rows[y].recordId
       && links.rows[x].resultId == links.rows[y].resultId) ==> x == y
  }
}
