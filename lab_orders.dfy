/** Lab-test orders (LabTestOrderServiceImpl).

    An order names a stored test type and a stored patient; a doctor id
    that matches no user gives an order without a doctor. A new order is
    dated today and awaits payment. The expected result time is set from an
    ISO date, at 17:00. Every failure is a `RuntimeException`, and the
    class is transactional, so a failure changes nothing.
 */
module LabOrders {
  import opened Wrappers
  import opened Text
  import opened Dates
  import opened Tables
  import opened ClinicDb

  /** The doctor `createLabTestOrder` attaches: the given id when it names a
      stored user, and none otherwise. */
  function KnownDoctor(users: Table<UserRow>, doctorId: Option<int>): (d: Option<int>)
    ensures d.Some? <==> doctorId.Some? && doctorId.value in users.rows
    ensures d.Some? ==> d == doctorId
  {
    if doctorId.Some? && doctorId.value in users.rows then doctorId else None
  }

  /** `createLabTestOrder`, with `today` for `LocalDate.now()` and `now` for
      the creation time `@PrePersist` stamps. The result is the new key. */
  method CreateLabTestOrder(db: Database, testTypeId: int, patientId: int, doctorId: Option<int>,
                            medicalRecordId: Option<int>, notes: Option<string>, today: Date, now: DateTime)
    returns (r: Result<int>)
    requires db.labOrders.Issued() && LabOrdersLinked(db.labOrders, db.testTypes, db.users)
    requires PaymentOrdersLinked(db.paymentOrders, db.payments, db.labOrders)
    modifies db`labOrders
    ensures db.labOrders.Issued() && LabOrdersLinked(db.labOrders, db.testTypes, db.users)
    ensures PaymentOrdersLinked(db.paymentOrders, db.payments, db.labOrders)
    ensures r.Err? <==> testTypeId !in db.testTypes.rows || patientId !in db.users.rows
    ensures r.Err? ==> r.error == RuntimeException && db.labOrders == old(db.labOrders)
    ensures r.Ok? ==> (
      && r.value == old(db.labOrders.next)
      && db.labOrders == old(db.labOrders).Insert(LabOrderRow(
           testTypeId, patientId, KnownDoctor(db.users, doctorId), today, None,
           Some(AWAITING_PAYMENT), medicalRecordId, notes, now)))
  {
    if testTypeId !in db.testTypes.rows || patientId !in db.users.rows {
      return Err(RuntimeException);
    }
    var doctor := KnownDoctor(db.users, doctorId);
    var order := LabOrderRow(testTypeId, patientId, doctor, today, None, Some(AWAITING_PAYMENT), medicalRecordId, notes, now);
    r := Ok(db.labOrders.next);
    db.labOrders := db.labOrders.Insert(order);
  }

  /** A new order is never awaiting a sample, so no result can be entered
      for it before it is paid for. */
  lemma NewOrderAwaitsPayment(db: Database, testTypeId: int, patientId: int, doctorId: Option<int>,
                              medicalRecordId: Option<int>, notes: Option<string>, today: Date, now: DateTime)
    ensures var o := LabOrderRow(testTypeId, patientId, KnownDoctor(db.users, doctorId), today, None,
                                 Some(AWAITING_PAYMENT), medicalRecordId, notes, now);
      o.status != Some(AWAITING_SAMPLE) && o.status != Some(HAS_RESULT) && o.resultExpectedDate.None?
  {
  }

  function OfPatient(patientId: int): LabOrderRow -> bool {
    (o: LabOrderRow) => o.patientId == patientId
  }

  /** An order of the patient whose test type is in the "HIV" group (the
      inner join drops an order whose test type is missing). */
  function HivOrderOf(testTypes: map<int, TestTypeRow>, patientId: int): LabOrderRow -> bool {
    (o: LabOrderRow) => o.patientId == patientId && o.testTypeId in testTypes
      && testTypes[o.testTypeId].testGroup == Some("HIV")
  }

  function OfRecord(recordId: int): LabOrderRow -> bool {
    (o: LabOrderRow) => o.medicalRecordId == Some(recordId)
  }

  /** `getPatientOrders`: an unknown patient is an error; otherwise the
      patient's orders. */
  function PatientOrders(users: Table<UserRow>, labOrders: Table<LabOrderRow>, patientId: int): (r: Result<seq<int>>)
    requires labOrders.Issued()
    ensures r.Err? <==> patientId !in users.rows
    ensures r.Err? ==> r.error == RuntimeException
    ensures r.Ok? ==> forall k :: k in r.value <==> k in labOrders.rows && labOrders.rows[k].patientId == patientId
  {
    if patientId !in users.rows then Err(RuntimeException) else Ok(labOrders.Where(OfPatient(patientId)))
  }

  /** `getPatientHIVOrders`: as `getPatientOrders`, kept to HIV tests. */
  function PatientHivOrders(users: Table<UserRow>, testTypes: Table<TestTypeRow>, labOrders: Table<LabOrderRow>,
                            patientId: int): (r: Result<seq<int>>)
    requires labOrders.Issued()
    ensures r.Err? <==> patientId !in users.rows
    ensures r.Err? ==> r.error == RuntimeException
    ensures r.Ok? ==> forall k :: k in r.value <==>
      k in labOrders.rows && labOrders.rows[k].patientId == patientId
      && labOrders.rows[k].testTypeId in testTypes.rows
      && testTypes.rows[labOrders.rows[k].testTypeId].testGroup == Some("HIV")
  {
    if patientId !in users.rows then Err(RuntimeException)
    else Ok(labOrders.Where(HivOrderOf(testTypes.rows, patientId)))
  }

  /** The HIV orders of a patient are among the patient's orders, and with
      linked orders they are exactly those whose test type is in the HIV
      group. */
  lemma HivOrdersArePatientOrders(users: Table<UserRow>, testTypes: Table<TestTypeRow>, labOrders: Table<LabOrderRow>,
                                  patientId: int)
    requires labOrders.Issued() && LabOrdersLinked(labOrders, testTypes, users)
    ensures PatientHivOrders(users, testTypes, labOrders, patientId).Err?
        <==> PatientOrders(users, labOrders, patientId).Err?
    ensures PatientHivOrders(users, testTypes, labOrders, patientId).Ok? ==>
      var all := PatientOrders(users, labOrders, patientId).value;
      forall k :: k in PatientHivOrders(users, testTypes, labOrders, patientId).value <==>
        k in all && testTypes.rows[labOrders.rows[k].testTypeId].testGroup == Some("HIV")
  {
  }

  /** `getOrdersByMedicalRecord`: a null record id is an error. */
  function OrdersByMedicalRecord(labOrders: Table<LabOrderRow>, recordId: Option<int>): (r: Result<seq<int>>)
    requires labOrders.Issued()
    ensures r.Err? <==> recordId.None?
    ensures r.Err? ==> r.error == RuntimeException
    ensures r.Ok? ==> forall k :: k in r.value <==> k in labOrders.rows && labOrders.rows[k].medicalRecordId == recordId
  {
    if recordId.None? then Err(RuntimeException) else Ok(labOrders.Where(OfRecord(recordId.value)))
  }

  /** The derived query `findByStatus…`, which matches a null status with
      `IS NULL`. */
  function WithStatus(status: Option<string>): LabOrderRow -> bool {
    (o: LabOrderRow) => o.status == status
  }

  /** The JPQL `lto.status = :status`, which matches nothing for a null
      status. */
  function StatusEquals(status: Option<string>): LabOrderRow -> bool {
    (o: LabOrderRow) => status.Some? && o.status == status
  }

  /** `getOrdersByStatus`. */
  function OrdersByStatus(labOrders: Table<LabOrderRow>, status: Option<string>): (r: seq<int>)
    requires labOrders.Issued()
    ensures forall k :: k in r <==> k in labOrders.rows && labOrders.rows[k].status == status
  {
    labOrders.Where(WithStatus(status))
  }

  /** `countOrdersByStatus`. */
  function CountOrdersByStatus(labOrders: Table<LabOrderRow>, status: Option<string>): (n: nat)
    requires labOrders.Issued()
    ensures status.None? ==> n == 0
    ensures status.Some? ==> n == |OrdersByStatus(labOrders, status)|
  {
    if status.None? then
      0  // `= NULL` holds for no row
    else
      assert labOrders.Where(StatusEquals(status)) == labOrders.Where(WithStatus(status)) by {
        SameSelection(labOrders, StatusEquals(status), WithStatus(status));
      }
      labOrders.Count(StatusEquals(status))
  }

  /** Two row predicates that agree on every stored row select the same
      keys. */
  lemma SameSelection(t: Table<LabOrderRow>, p: LabOrderRow -> bool, q: LabOrderRow -> bool)
    requires t.Issued()
    requires forall k :: k in t.rows ==> p(t.rows[k]) == q(t.rows[k])
    ensures t.Where(p) == t.Where(q)
  {
    SameSelect(t.rows, p, q, t.next);
  }

  lemma {:induction false} SameSelect(m: map<int, LabOrderRow>, p: LabOrderRow -> bool, q: LabOrderRow -> bool, n: nat)
    requires forall k :: k in m ==> p(m[k]) == q(m[k])
    ensures Select(m, p, n) == Select(m, q, n)
  {
    if n > 0 {
      SameSelect(m, p, q, n - 1);
    }
  }

  /** For a non-null status the list and the count agree; for a null one
      the list holds the orders without a status and the count is zero. */
  lemma NullStatusCountDisagrees(labOrders: Table<LabOrderRow>, k: int)
    requires labOrders.Issued() && k in labOrders.rows && labOrders.rows[k].status.None?
    ensures k in OrdersByStatus(labOrders, None)
    ensures CountOrdersByStatus(labOrders, None) == 0 < |OrdersByStatus(labOrders, None)|
  {
  }

  /** `updateOrderStatus`: the order gets exactly the given status. */
  method UpdateOrderStatus(db: Database, orderId: int, status: Option<string>) returns (r: Result<int>)
    requires db.labOrders.Issued() && LabOrdersLinked(db.labOrders, db.testTypes, db.users)
    requires PaymentOrdersLinked(db.paymentOrders, db.payments, db.labOrders)
    modifies db`labOrders
    ensures db.labOrders.Issued() && LabOrdersLinked(db.labOrders, db.testTypes, db.users)
    ensures PaymentOrdersLinked(db.paymentOrders, db.payments, db.labOrders)
    ensures r.Err? <==> orderId !in old(db.labOrders.rows)
    ensures r.Err? ==> r.error == RuntimeException && db.labOrders == old(db.labOrders)
    ensures r.Ok? ==> (
      && r.value == orderId
      && db.labOrders == old(db.labOrders).Put(orderId, old(db.labOrders.rows[orderId]).(status := status)))
  {
    if orderId !in db.labOrders.rows {
      return Err(RuntimeException);
    }
    db.labOrders := db.labOrders.Put(orderId, db.labOrders.rows[orderId].(status := status));
    r := Ok(orderId);
  }

  /** Moving one order from one status to another takes one order off the
      old status's count and adds one to the new status's count. */
  lemma StatusCountsAfterUpdate(labOrders: Table<LabOrderRow>, orderId: int, status: string)
    requires labOrders.Issued() && orderId in labOrders.rows
    requires labOrders.rows[orderId].status.Some? && labOrders.rows[orderId].status != Some(status)
    ensures var before := labOrders.rows[orderId].status;
      var after := labOrders.Put(orderId, labOrders.rows[orderId].(status := Some(status)));
      && CountOrdersByStatus(after, before) + 1 == CountOrdersByStatus(labOrders, before)
      && CountOrdersByStatus(after, Some(status)) == CountOrdersByStatus(labOrders, Some(status)) + 1
  {
    var before := labOrders.rows[orderId].status;
    var row := labOrders.rows[orderId].(status := Some(status));
    labOrders.CountAfterPut(WithStatus(before), orderId, row);
    labOrders.CountAfterPut(WithStatus(Some(status)), orderId, row);
    labOrders.Put(orderId, row).CountAfterPut(WithStatus(Some(status)), orderId, row);
  }

  /** The notes `updateExpectedResultDate` keeps: the new ones when they are
      not null and not blank after `trim`, and the old ones otherwise. */
  function NotesAfter(current: Option<string>, notes: Option<string>): (n: Option<string>)
    ensures notes.Some? && JavaTrim(notes.value) != "" ==> n == notes
    ensures notes.None? || JavaTrim(notes.value) == "" ==> n == current
  {
    if notes.Some? && JavaTrim(notes.value) != "" then notes else current
  }

  /** `updateExpectedResultDate`: the order is due at 17:00 on the given ISO
      date. An unknown order, a null date and an unparsable date are all
      errors. */
  method UpdateExpectedResultDate(db: Database, orderId: int, date: Option<string>, notes: Option<string>)
    returns (r: Result<int>)
    requires db.labOrders.Issued() && LabOrdersLinked(db.labOrders, db.testTypes, db.users)
    requires PaymentOrdersLinked(db.paymentOrders, db.payments, db.labOrders)
    modifies db`labOrders
    ensures db.labOrders.Issued() && LabOrdersLinked(db.labOrders, db.testTypes, db.users)
    ensures PaymentOrdersLinked(db.paymentOrders, db.payments, db.labOrders)
    ensures r.Err? <==> orderId !in old(db.labOrders.rows) || date.None? || ParseIsoDate(date.value).None?
    ensures r.Err? ==> r.error == RuntimeException && db.labOrders == old(db.labOrders)
    ensures r.Ok? ==> (
      && r.value == orderId && orderId in db.labOrders.rows
      && var due := db.labOrders.rows[orderId].resultExpectedDate;
      && due.Some? && due.value.time == TimeOf(17, 0)
      && 0 <= due.value.date.year <= 9999 && FormatIsoDate(due.value.date) == date.value
      && db.labOrders == old(db.labOrders).Put(orderId, old(db.labOrders.rows[orderId]).(
           resultExpectedDate := Some(AtTime(ParseIsoDate(date.value).value, 17, 0)),
           notes := NotesAfter(old(db.labOrders.rows[orderId]).notes, notes))))
  {
    if orderId !in db.labOrders.rows {
      return Err(RuntimeException);
    }
    var order := db.labOrders.rows[orderId];
    if date.None? {
      return Err(RuntimeException);
    }
    var parsed := ParseIsoDate(date.value);
    if parsed.None? {
      return Err(RuntimeException);
    }
    ParseOnlyIsoDates(date.value);
    var due := AtTime(parsed.value, 17, 0);
    db.labOrders := db.labOrders.Put(orderId, order.(resultExpectedDate := Some(due), notes := NotesAfter(order.notes, notes)));
    r := Ok(orderId);
  }

  /** Setting the expected date twice with the same arguments stores the
      same order as setting it once. */
  lemma ExpectedDateIdempotent(o: LabOrderRow, d: Date, notes: Option<string>)
    ensures var once := o.(resultExpectedDate := Some(AtTime(d, 17, 0)), notes := NotesAfter(o.notes, notes));
      once.(resultExpectedDate := Some(AtTime(d, 17, 0)), notes := NotesAfter(once.notes, notes)) == once
  {
  }
}
