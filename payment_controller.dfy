/** The payment endpoints (PaymentController).

    `createPayment` does not call the payment service: it validates the
    request itself, tolerates ids that match no order, counts an order
    without a test type as zero, and moves only orders that are new or
    awaiting payment, to "awaiting payment". It skips the service's check
    for orders already paid. The status update refuses a body without a
    status; `processPayment` takes the payment id from the path and answers
    400 for an `IllegalArgumentException` and 500 for any other failure.
 */
module PaymentController {
  import opened Wrappers
  import opened Dates
  import opened Tables
  import opened ClinicDb
  import Payments

  /** An HTTP answer: a body, a refusal with a fixed message, or a caught
      exception with the status it is mapped to. */
  datatype Reply<T> = Success(body: T) | Refused(status: int, message: string) | Failed(status: int, cause: Exception)

  datatype CreatePaymentRequest = CreatePaymentRequest(
    patientId: Option<int>, labTestOrderIds: Option<seq<int>>, notes: Option<string>)

  /** The checks of `createPayment`, in order, and their messages. */
  function Refusal(users: Table<UserRow>, labOrders: Table<LabOrderRow>, req: CreatePaymentRequest): (m: Option<string>)
    requires labOrders.Issued()
    ensures req.patientId.None? ==> m == Some("Patient ID is required")
    ensures req.patientId.Some? && (req.labTestOrderIds.None? || req.labTestOrderIds.value == []) ==>
      m == Some("At least one lab test order ID is required")
    ensures m.None? <==>
      req.patientId.Some? && req.labTestOrderIds.Some? && req.labTestOrderIds.value != []
      && req.patientId.value in users.rows
      && exists i :: 0 <= i < |req.labTestOrderIds.value| && req.labTestOrderIds.value[i] in labOrders.rows
  {
    if req.patientId.None? then Some("Patient ID is required")
    else if req.labTestOrderIds.None? || req.labTestOrderIds.value == [] then Some("At least one lab test order ID is required")
    else if req.patientId.value !in users.rows then Some("Patient not found")
    else if labOrders.FindAll(req.labTestOrderIds.value) == [] then
      assert forall i :: 0 <= i < |req.labTestOrderIds.value| ==> req.labTestOrderIds.value[i] !in labOrders.FindAll(req.labTestOrderIds.value);
      Some("No valid lab test orders found")
    else
      var k := labOrders.FindAll(req.labTestOrderIds.value)[0];
      assert k in labOrders.FindAll(req.labTestOrderIds.value);
      None
  }

  /** `createPayment`, with `now` for `LocalDateTime.now()`. The result is
      the key of the new payment. */
  method CreatePayment(db: Database, req: CreatePaymentRequest, now: DateTime) returns (r: Reply<int>)
    requires db.payments.Issued() && db.labOrders.Issued() && db.paymentOrders.Issued()
    requires LabOrdersLinked(db.labOrders, db.testTypes, db.users)
    requires PaymentOrdersLinked(db.paymentOrders, db.payments, db.labOrders)
    modifies db`payments, db`labOrders, db`paymentOrders
    ensures db.payments.Issued() && db.labOrders.Issued() && db.paymentOrders.Issued()
    ensures LabOrdersLinked(db.labOrders, db.testTypes, db.users)
    ensures PaymentOrdersLinked(db.paymentOrders, db.payments, db.labOrders)
    ensures !r.Failed?
    ensures r.Refused? <==> old(Refusal(db.users, db.labOrders, req)).Some?
    ensures r.Refused? ==> (
      && r.status == 400 && r.message == old(Refusal(db.users, db.labOrders, req)).value
      && db.payments == old(db.payments) && db.labOrders == old(db.labOrders) && db.paymentOrders == old(db.paymentOrders))
    ensures r.Success? ==>
      var found := old(db.labOrders).FindAll(req.labTestOrderIds.value);
      && r.body == old(db.payments.next)
      && db.payments == old(db.payments).Insert(Payments.NewPayment(
           req.patientId.value, Payments.TotalOf(old(db.labOrders.rows), db.testTypes.rows, found), req.notes, Some(now)))
      && db.labOrders == Payments.Moved(old(db.labOrders), found,
           Payments.StatusIsEither(CREATED, AWAITING_PAYMENT), AWAITING_PAYMENT)
      && db.paymentOrders == old(db.paymentOrders).InsertAll(Payments.Links(r.body, found))
  {
    var m := Refusal(db.users, db.labOrders, req);
    if m.Some? {
      return Refused(400, m.value);
    }
    var found := db.labOrders.FindAll(req.labTestOrderIds.value);
    var total := Payments.TotalOf(db.labOrders.rows, db.testTypes.rows, found);
    var payment := Payments.NewPayment(req.patientId.value, total, req.notes, Some(now));
    var paymentId := Payments.SavePayment(db, payment, found,
      Payments.StatusIsEither(CREATED, AWAITING_PAYMENT), AWAITING_PAYMENT);
    r := Success(paymentId);
  }

  /** The endpoint accepts an order that is already paid, where the service
      refuses it: it has no `existsByLabTestOrderId` check. */
  lemma ControllerSkipsPaidCheck(users: Table<UserRow>, labOrders: Table<LabOrderRow>, links: Table<PaymentOrderRow>,
                                 patientId: int, orderId: int, notes: Option<string>)
    requires labOrders.Issued() && patientId in users.rows && orderId in labOrders.rows
    requires Payments.AlreadyLinked(links, orderId)
    ensures Refusal(users, labOrders, CreatePaymentRequest(Some(patientId), Some([orderId]), notes)).None?
    ensures Payments.CreatePaymentError(users, labOrders, links, patientId, Some([orderId])) == Some(IllegalStateException)
  {
    assert [orderId][0] == orderId;
  }

  /** The endpoint tolerates ids that match no order as long as one does,
      where the service refuses them. */
  lemma ControllerToleratesPartialMatch(users: Table<UserRow>, labOrders: Table<LabOrderRow>, links: Table<PaymentOrderRow>,
                                        patientId: int, known: int, unknown: int, notes: Option<string>)
    requires labOrders.Issued() && patientId in users.rows && known in labOrders.rows && unknown !in labOrders.rows
    ensures Refusal(users, labOrders, CreatePaymentRequest(Some(patientId), Some([known, unknown]), notes)).None?
    ensures Payments.CreatePaymentError(users, labOrders, links, patientId, Some([known, unknown])).Some?
  {
    assert [known, unknown][0] == known;
    assert [known, unknown][1] == unknown;
  }

  /** `updatePaymentStatus`: a body without a status (or with a null one)
      is refused before anything changes. */
  method UpdatePaymentStatus(db: Database, paymentId: int, body: map<string, Option<string>>) returns (r: Reply<int>)
    requires db.paymentOrders.Issued() && PaymentOrdersLinked(db.paymentOrders, db.payments, db.labOrders)
    requires LabOrdersLinked(db.labOrders, db.testTypes, db.users)
    modifies db`payments, db`labOrders
    ensures PaymentOrdersLinked(db.paymentOrders, db.payments, db.labOrders)
    ensures LabOrdersLinked(db.labOrders, db.testTypes, db.users)
    ensures ("status" !in body || body["status"].None?) <==> r.Refused?
    ensures r.Refused? ==> (
      && r.status == 400 && r.message == "Status is required"
      && db.payments == old(db.payments) && db.labOrders == old(db.labOrders))
    ensures r.Failed? <==> "status" in body && body["status"].Some? && paymentId !in old(db.payments.rows)
    ensures r.Failed? ==> r.status == 500 && r.cause == ResourceNotFoundException
    ensures r.Success? ==> (
      && r.body == paymentId
      && db.payments == old(db.payments).Put(paymentId, old(db.payments.rows)[paymentId].(status := body["status"]))
      && db.labOrders == Payments.OrdersAfterStatus(old(db.labOrders), db.paymentOrders, paymentId, body["status"]))
  {
    var status := if "status" in body then body["status"] else None;
    if status.None? {
      return Refused(400, "Status is required");
    }
    var s := Payments.UpdatePaymentStatus(db, paymentId, status);
    match s
    case Err(e) => r := Failed(500, e);
    case Ok(id) => r := Success(id);
  }

  /** The status code a failure of `processPayment` is answered with. */
  function StatusFor(e: Exception): (code: int)
    ensures code == 400 <==> e == IllegalArgumentException
    ensures code == 400 || code == 500
  {
    if e == IllegalArgumentException then 400 else 500
  }

  /** `processPayment`: the path id replaces the body's id. */
  method ProcessPayment(db: Database, paymentId: int, req: Payments.ProcessRequest, now: DateTime) returns (r: Reply<int>)
    requires db.paymentOrders.Issued() && PaymentOrdersLinked(db.paymentOrders, db.payments, db.labOrders)
    requires LabOrdersLinked(db.labOrders, db.testTypes, db.users)
    modifies db`payments, db`labOrders
    ensures PaymentOrdersLinked(db.paymentOrders, db.payments, db.labOrders)
    ensures LabOrdersLinked(db.labOrders, db.testTypes, db.users)
    ensures !r.Refused?
    ensures r.Failed? <==> old(Payments.ProcessError(db.payments, req.(paymentId := Some(paymentId)))).Some?
    ensures r.Failed? ==> (
      && r.cause == old(Payments.ProcessError(db.payments, req.(paymentId := Some(paymentId)))).value
      && r.status == StatusFor(r.cause)
      && db.payments == old(db.payments) && db.labOrders == old(db.labOrders))
    ensures r.Success? ==> (
      && r.body == paymentId
      && db.payments == old(db.payments).Put(paymentId,
           Payments.Processed(old(db.payments.rows)[paymentId], req.(paymentId := Some(paymentId)), now))
      && db.labOrders == Payments.OrdersAfterStatus(old(db.labOrders), db.paymentOrders, paymentId, Some(Payments.PAID)))
  {
    var s := Payments.ProcessPayment(db, req.(paymentId := Some(paymentId)), now);
    match s
    case Err(e) => r := Failed(StatusFor(e), e);
    case Ok(id) => r := Success(id);
  }

  /** Through this endpoint, a null methods list is answered 500 by the
      service as written and 400 by the corrected service, as the service's
      own check intends. */
  lemma NullMethodsAnsweredAs(payments: Table<PaymentRow>, paymentId: int, note: Option<string>)
    ensures StatusFor(Payments.ProcessErrorAsWritten(payments, Payments.ProcessRequest(Some(paymentId), None, note)).value) == 500
    ensures StatusFor(Payments.ProcessError(payments, Payments.ProcessRequest(Some(paymentId), None, note)).value) == 400
  {
    Payments.NullMethodsFinding(payments, paymentId, note);
  }
}
