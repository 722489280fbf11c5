/** Payments for lab-test orders (PaymentServiceImpl, Payment, PaymentOrder).

    A payment belongs to a patient and is linked to its lab-test orders by
    `PaymentOrder` rows. Creating a payment moves its orders to "awaiting
    sample"; marking a payment paid, or processing it with a list of payment
    methods, moves those of its orders still awaiting payment to "awaiting
    sample". Every service method is transactional: a failure leaves the
    tables as they were. Money is in whole currency units.
 */
module Payments {
  import opened Wrappers
  import opened Text
  import opened Dates
  import opened Tables
  import opened ClinicDb

  const PAID := "Đã thanh toán"
  const DEFAULT_SERVICE_NAME := "Dịch vụ xét nghiệm"

  // ---------------------------------------------------------------------
  // PaymentOrder: the two getters over the linked lab order.

  /** The test type of a lab order, when the order and its test type are
      present. */
  function TestTypeOf(order: Option<LabOrderRow>, testTypes: map<int, TestTypeRow>): (t: Option<TestTypeRow>)
    ensures t.Some? <==> order.Some? && order.value.testTypeId in testTypes
    ensures t.Some? ==> t.value == testTypes[order.value.testTypeId]
  {
    if order.Some? && order.value.testTypeId in testTypes then Some(testTypes[order.value.testTypeId]) else None
  }

  /** `getServiceName`: the test type's name, or the generic service name. */
  function ServiceName(order: Option<LabOrderRow>, testTypes: map<int, TestTypeRow>): (name: string)
    ensures order.Some? && order.value.testTypeId in testTypes ==> name == testTypes[order.value.testTypeId].name
    ensures order.None? || order.value.testTypeId !in testTypes ==> name == DEFAULT_SERVICE_NAME
  {
    match TestTypeOf(order, testTypes)
    case Some(t) => t.name
    case None => DEFAULT_SERVICE_NAME
  }

  /** `getAmount`: the test type's price, or zero. */
  function Amount(order: Option<LabOrderRow>, testTypes: map<int, TestTypeRow>): (a: int)
    ensures order.Some? && order.value.testTypeId in testTypes ==> a == testTypes[order.value.testTypeId].price
    ensures order.None? || order.value.testTypeId !in testTypes ==> a == 0
  {
    match TestTypeOf(order, testTypes)
    case Some(t) => t.price
    case None => 0
  }

  // ---------------------------------------------------------------------
  // Payment: builder defaults and the in-memory association.

  /** A payment built with only its patient, total, notes and creation time:
      the builder defaults give status "Chờ thanh toán" and no invoice. */
  function NewPayment(patientId: int, totalAmount: int, notes: Option<string>, createdAt: Option<DateTime>): (p: PaymentRow)
    ensures p.status == Some(AWAITING_PAYMENT) && !p.invoiceGenerated
    ensures p.patientId == patientId && p.totalAmount == totalAmount && p.notes == notes && p.createdAt == createdAt
    ensures p.paymentDate.None? && p.paymentMethod.None? && p.transactionId.None? && p.transactionRef.None?
    ensures p.transactionDate.None? && p.bankCode.None? && p.cardType.None? && p.responseCode.None? && p.secureHash.None?
  {
    PaymentRow(patientId, totalAmount, None, None, Some(AWAITING_PAYMENT),
               None, None, None, None, None, None, None, notes, false, createdAt)
  }

  /** A `PaymentOrder` object: its back-link to a payment may be cleared. */
  class PaymentOrderEntity {
    var payment: PaymentEntity?
    const labTestOrderId: int

    constructor (labTestOrderId: int)
      ensures this.labTestOrderId == labTestOrderId && payment == null
    {
      this.labTestOrderId := labTestOrderId;
      payment := null;
    }
  }

  /** A `Payment` object with its set of `PaymentOrder`s. The no-argument
      constructor starts with an empty set; the builder leaves the set null,
      since the field's initializer is not a builder default. */
  class PaymentEntity {
    var paymentOrders: Option<set<PaymentOrderEntity>>

    constructor ()
      ensures paymentOrders == Some({})
    {
      paymentOrders := Some({});
    }

    constructor Built()
      ensures paymentOrders.None?
    {
      paymentOrders := None;
    }

    /** Every order in the set points back at this payment. */
    ghost predicate BackLinked()
      reads this, if paymentOrders.Some? then paymentOrders.value else {}
    {
      paymentOrders.Some? ==> forall po :: po in paymentOrders.value ==> po.payment == this
    }

    /** `addPaymentOrder`; a null set throws. */
    method AddPaymentOrder(po: PaymentOrderEntity) returns (r: Result<()>)
      modifies this, po
      ensures r.Err? <==> old(paymentOrders).None?
      ensures r.Err? ==> r.error == NullPointerException && paymentOrders == old(paymentOrders) && po.payment == old(po.payment)
      ensures r.Ok? ==> paymentOrders == Some(old(paymentOrders).value + {po}) && po.payment == this
      ensures old(BackLinked()) ==> BackLinked()
    {
      if paymentOrders.None? {
        return Err(NullPointerException);
      }
      paymentOrders := Some(paymentOrders.value + {po});
      po.payment := this;
      r := Ok(());
    }

    /** `removePaymentOrder`; a null set throws. */
    method RemovePaymentOrder(po: PaymentOrderEntity) returns (r: Result<()>)
      modifies this, po
      ensures r.Err? <==> old(paymentOrders).None?
      ensures r.Err? ==> r.error == NullPointerException && paymentOrders == old(paymentOrders) && po.payment == old(po.payment)
      ensures r.Ok? ==> paymentOrders == Some(old(paymentOrders).value - {po}) && po.payment == null
      ensures old(BackLinked()) ==> BackLinked()
    {
      if paymentOrders.None? {
        return Err(NullPointerException);
      }
      paymentOrders := Some(paymentOrders.value - {po});
      po.payment := null;
      r := Ok(());
    }

    /** `getLabTestOrderIds`, up to the order of the hash set: empty for a
        null or empty set. */
    ghost function LabTestOrderIds(): (ids: multiset<int>)
      reads this
      ensures paymentOrders.None? ==> ids == multiset{}
      ensures paymentOrders.Some? ==> ids == IdsOf(paymentOrders.value)
    {
      if paymentOrders.None? then multiset{} else IdsOf(paymentOrders.value)
    }
  }

  /** One lab-order id per payment order of `s`. */
  ghost function IdsOf(s: set<PaymentOrderEntity>): (ids: multiset<int>)
    ensures |ids| == |s|
    ensures forall po :: po in s ==> po.labTestOrderId in ids
    ensures forall id :: id in ids ==> exists po :: po in s && po.labTestOrderId == id
    decreases s
  {
    if s == {} then multiset{}
    else if forall po: PaymentOrderEntity :: po !in s then assert false; multiset{}
    else
      var po :| po in s;
      IdsOf(s - {po}) + multiset{po.labTestOrderId}
  }

  // ---------------------------------------------------------------------
  // Totals.

  /** The sum of the prices of the orders at `keys`, counting an order
      without a stored test type as zero. */
  function TotalOf(labOrders: map<int, LabOrderRow>, testTypes: map<int, TestTypeRow>, keys: seq<int>): int
    requires forall i :: 0 <= i < |keys| ==> keys[i] in labOrders
  {
    if keys == [] then 0
    else TotalOf(labOrders, testTypes, keys[..|keys| - 1]) + Amount(Some(labOrders[keys[|keys| - 1]]), testTypes)
  }

  /** Totals add up over a concatenation. */
  lemma {:induction false} TotalOfAppend(labOrders: map<int, LabOrderRow>, testTypes: map<int, TestTypeRow>, a: seq<int>, b: seq<int>)
    requires forall i :: 0 <= i < |a| ==> a[i] in labOrders
    requires forall i :: 0 <= i < |b| ==> b[i] in labOrders
    ensures TotalOf(labOrders, testTypes, a + b) == TotalOf(labOrders, testTypes, a) + TotalOf(labOrders, testTypes, b)
    decreases |b|
  {
    if b == [] {
      assert a + b == a;
    } else {
      var b' := b[..|b| - 1];
      assert (a + b)[..|a + b| - 1] == a + b';
      TotalOfAppend(labOrders, testTypes, a, b');
    }
  }

  /** With non-negative prices the total is non-negative, and it only
      depends on the rows at `keys`. */
  lemma {:induction false} TotalOfNonNegative(labOrders: map<int, LabOrderRow>, testTypes: map<int, TestTypeRow>, keys: seq<int>)
    requires forall i :: 0 <= i < |keys| ==> keys[i] in labOrders
    requires forall t :: t in testTypes ==> testTypes[t].price >= 0
    ensures TotalOf(labOrders, testTypes, keys) >= 0
    decreases |keys|
  {
    if keys != [] {
      TotalOfNonNegative(labOrders, testTypes, keys[..|keys| - 1]);
    }
  }

  /** The total is the same for two tables that agree on the orders at
      `keys` and their test types. */
  lemma {:induction false} TotalOfFrame(o1: map<int, LabOrderRow>, o2: map<int, LabOrderRow>, testTypes: map<int, TestTypeRow>, keys: seq<int>)
    requires forall i :: 0 <= i < |keys| ==> keys[i] in o1 && keys[i] in o2
    requires forall i :: 0 <= i < |keys| ==> o1[keys[i]].testTypeId == o2[keys[i]].testTypeId
    ensures TotalOf(o1, testTypes, keys) == TotalOf(o2, testTypes, keys)
    decreases |keys|
  {
    if keys != [] {
      TotalOfFrame(o1, o2, testTypes, keys[..|keys| - 1]);
    }
  }

  /** `calculateTotalAmount`: the loop over `findAllById`, adding each
      order's test-type price. */
  method CalculateTotalAmount(db: Database, ids: seq<int>) returns (total: int)
    requires db.labOrders.Issued() && LabOrdersLinked(db.labOrders, db.testTypes, db.users)
    ensures total == TotalOf(db.labOrders.rows, db.testTypes.rows, db.labOrders.FindAll(ids))
  {
    var found := db.labOrders.FindAll(ids);
    total := 0;
    var i := 0;
    while i < |found|
      invariant 0 <= i <= |found|
      invariant total == TotalOf(db.labOrders.rows, db.testTypes.rows, found[..i])
    {
      var order := db.labOrders.rows[found[i]];
      total := total + db.testTypes.rows[order.testTypeId].price;
      assert found[..i + 1][..i] == found[..i];
      i := i + 1;
    }
    assert found[..i] == found;
  }

  // ---------------------------------------------------------------------
  // Moving lab orders from one status to another.

  /** The order statuses a move applies to. */
  function AnyStatus(): Option<string> -> bool {
    (s: Option<string>) => true
  }

  function StatusIs(x: string): Option<string> -> bool {
    (s: Option<string>) => s == Some(x)
  }

  function StatusIsEither(x: string, y: string): Option<string> -> bool {
    (s: Option<string>) => s == Some(x) || s == Some(y)
  }

  /** The lab orders after every order at `keys` whose status satisfies
      `from` is set to `to`. A repeated key is moved once. */
  function Moved(t: Table<LabOrderRow>, keys: seq<int>, from: Option<string> -> bool, to: string): (u: Table<LabOrderRow>)
    ensures u.next == t.next && u.rows.Keys == t.rows.Keys
    ensures forall k :: k in t.rows && (k !in keys || !from(t.rows[k].status)) ==> u.rows[k] == t.rows[k]
    ensures forall k :: k in t.rows && k in keys && from(t.rows[k].status) ==> u.rows[k] == t.rows[k].(status := Some(to))
  {
    Table(map k | k in t.rows :: if k in keys && from(t.rows[k].status) then t.rows[k].(status := Some(to)) else t.rows[k], t.next)
  }

  /** One step of a move: the order at `k`, if its status satisfies `from`. */
  function MoveOne(t: Table<LabOrderRow>, k: int, from: Option<string> -> bool, to: string): Table<LabOrderRow>
    requires k in t.rows
  {
    if from(t.rows[k].status) then t.Put(k, t.rows[k].(status := Some(to))) else t
  }

  /** Moving the keys one at a time is the move of them all, even when a key
      repeats. */
  lemma MovedSnoc(t: Table<LabOrderRow>, keys: seq<int>, k: int, from: Option<string> -> bool, to: string)
    requires k in t.rows
    ensures Moved(t, keys + [k], from, to) == MoveOne(Moved(t, keys, from, to), k, from, to)
  {
    var u := Moved(t, keys, from, to);
    var lhs := Moved(t, keys + [k], from, to);
    var rhs := MoveOne(u, k, from, to);
    forall j | j in t.rows
      ensures lhs.rows[j] == rhs.rows[j]
    {
      if j != k {
        assert (j in keys + [k]) == (j in keys);
      }
    }
    assert lhs.rows == rhs.rows;
  }

  /** The status loop shared by the payment services: each order at `keys`
      whose status satisfies `from` is set to `to` and saved. */
  method MoveOrders(db: Database, keys: seq<int>, from: Option<string> -> bool, to: string)
    requires forall i :: 0 <= i < |keys| ==> keys[i] in db.labOrders.rows
    modifies db`labOrders
    ensures db.labOrders == Moved(old(db.labOrders), keys, from, to)
  {
    ghost var base := db.labOrders;
    var i := 0;
    assert Moved(base, [], from, to) == base;
    while i < |keys|
      invariant 0 <= i <= |keys|
      invariant db.labOrders == Moved(base, keys[..i], from, to)
    {
      var order := db.labOrders.rows[keys[i]];
      if from(order.status) {
        db.labOrders := db.labOrders.Put(keys[i], order.(status := Some(to)));
      }
      MovedSnoc(base, keys[..i], keys[i], from, to);
      assert keys[..i + 1] == keys[..i] + [keys[i]];
      i := i + 1;
    }
    assert keys[..i] == keys;
  }

  /** A move keeps the order keys, so it keeps the links of payments to
      orders and the orders' own links. */
  lemma MovedKeepsLinks(db: Database, t: Table<LabOrderRow>, keys: seq<int>, from: Option<string> -> bool, to: string)
    requires PaymentOrdersLinked(db.paymentOrders, db.payments, t)
    requires LabOrdersLinked(t, db.testTypes, db.users)
    ensures PaymentOrdersLinked(db.paymentOrders, db.payments, Moved(t, keys, from, to))
    ensures LabOrdersLinked(Moved(t, keys, from, to), db.testTypes, db.users)
    ensures t.Issued() ==> Moved(t, keys, from, to).Issued()
  {
  }

  // ---------------------------------------------------------------------
  // createPayment

  /** No lab order is linked to two payments. */
  predicate PaidOnce(links: Table<PaymentOrderRow>) {
    forall x, y :: x in links.rows && y in links.rows ==>
      links.rows[x].labOrderId == links.rows[y].labOrderId ==> x == y
  }

  /** `existsByLabTestOrderId`. */
  predicate AlreadyLinked(links: Table<PaymentOrderRow>, orderId: int) {
    exists l :: l in links.rows && links.rows[l].labOrderId == orderId
  }

  /** The payment-order rows of a new payment, one per order, in order. */
  function Links(paymentId: int, orderIds: seq<int>): (r: seq<PaymentOrderRow>)
    ensures |r| == |orderIds|
    ensures forall i :: 0 <= i < |r| ==> r[i] == PaymentOrderRow(paymentId, orderIds[i], None)
  {
    seq(|orderIds|, i requires 0 <= i < |orderIds| => PaymentOrderRow(paymentId, orderIds[i], None))
  }

  /** The checks of `createPayment` in the order the corrected service makes
      them: the patient, then a null or empty list, then orders already paid,
      then orders not found. */
  function CreatePaymentError(users: Table<UserRow>, labOrders: Table<LabOrderRow>, links: Table<PaymentOrderRow>,
                              patientId: int, ids: Option<seq<int>>): (e: Option<Exception>)
    requires labOrders.Issued()
    ensures patientId !in users.rows ==> e == Some(ResourceNotFoundException)
    ensures patientId in users.rows && (ids.None? || ids.value == []) ==> e == Some(IllegalArgumentException)
    ensures e.None? <==>
      patientId in users.rows && ids.Some? && ids.value != []
      && (forall i :: 0 <= i < |ids.value| ==> !AlreadyLinked(links, ids.value[i]))
      && (forall i :: 0 <= i < |ids.value| ==> ids.value[i] in labOrders.rows)
      && Distinct(ids.value)
  {
    labOrders.FindAllComplete(if ids.Some? then ids.value else []);
    if patientId !in users.rows then Some(ResourceNotFoundException)
    else if ids.None? || ids.value == [] then Some(IllegalArgumentException)
    else if exists i :: 0 <= i < |ids.value| && AlreadyLinked(links, ids.value[i]) then Some(IllegalStateException)
    else if |labOrders.FindAll(ids.value)| != |ids.value| then Some(ResourceNotFoundException)
    else None
  }

  /** The same checks as written: the log statement before the patient
      lookup reads the list's size, so a null list throws first. */
  function CreatePaymentErrorAsWritten(users: Table<UserRow>, labOrders: Table<LabOrderRow>, links: Table<PaymentOrderRow>,
                                       patientId: int, ids: Option<seq<int>>): (e: Option<Exception>)
    requires labOrders.Issued()
    ensures ids.None? ==> e == Some(NullPointerException)
    ensures ids.Some? ==> e == CreatePaymentError(users, labOrders, links, patientId, ids)
  {
    if ids.None? then Some(NullPointerException) else CreatePaymentError(users, labOrders, links, patientId, ids)
  }

  /** A null order list for a known patient: the code as written throws a
      `NullPointerException`, where its own null check means an
      `IllegalArgumentException`. */
  lemma NullOrderListFinding(users: Table<UserRow>, labOrders: Table<LabOrderRow>, links: Table<PaymentOrderRow>, patientId: int)
    requires labOrders.Issued() && patientId in users.rows
    ensures CreatePaymentErrorAsWritten(users, labOrders, links, patientId, None) == Some(NullPointerException)
    ensures CreatePaymentError(users, labOrders, links, patientId, None) == Some(IllegalArgumentException)
  {
  }

  /** `createPayment`. The result is the key of the new payment. On success
      the requested orders are all stored and distinct, the payment is
      linked to each exactly once, and none of them was linked before, so
      a table linking each order at most once stays so. */
  method CreatePayment(db: Database, patientId: int, ids: Option<seq<int>>) returns (r: Result<int>)
    requires db.payments.Issued() && db.labOrders.Issued() && db.paymentOrders.Issued()
    requires LabOrdersLinked(db.labOrders, db.testTypes, db.users)
    requires PaymentOrdersLinked(db.paymentOrders, db.payments, db.labOrders)
    modifies db`payments, db`labOrders, db`paymentOrders
    ensures db.payments.Issued() && db.labOrders.Issued() && db.paymentOrders.Issued()
    ensures LabOrdersLinked(db.labOrders, db.testTypes, db.users)
    ensures PaymentOrdersLinked(db.paymentOrders, db.payments, db.labOrders)
    ensures old(PaidOnce(db.paymentOrders)) ==> PaidOnce(db.paymentOrders)
    ensures r.Err? <==> old(CreatePaymentError(db.users, db.labOrders, db.paymentOrders, patientId, ids)).Some?
    ensures r.Err? ==> (
      && r.error == old(CreatePaymentError(db.users, db.labOrders, db.paymentOrders, patientId, ids)).value
      && db.payments == old(db.payments) && db.labOrders == old(db.labOrders) && db.paymentOrders == old(db.paymentOrders))
    ensures r.Ok? ==>
      var found := old(db.labOrders).FindAll(ids.value);
      && |found| == |ids.value|
      && r.value == old(db.payments.next)
      && db.payments == old(db.payments).Insert(
           NewPayment(patientId, TotalOf(old(db.labOrders.rows), db.testTypes.rows, found), None, None))
      && db.labOrders == Moved(old(db.labOrders), found, AnyStatus(), AWAITING_SAMPLE)
      && db.paymentOrders == old(db.paymentOrders).InsertAll(Links(r.value, found))
      && forall i :: 0 <= i < |found| ==> !AlreadyLinked(old(db.paymentOrders), found[i])
  {
    var e := CreatePaymentError(db.users, db.labOrders, db.paymentOrders, patientId, ids);
    if e.Some? {
      return Err(e.value);
    }
    var total := CalculateTotalAmount(db, ids.value);
    var found := db.labOrders.FindAll(ids.value);
    db.labOrders.FindAllComplete(ids.value);
    assert forall i :: 0 <= i < |found| ==> found[i] in ids.value;
    if PaidOnce(db.paymentOrders) {
      NewLinksKeepPaidOnce(db.paymentOrders, ids.value, found, db.payments.next);
    }
    var paymentId := SavePayment(db, NewPayment(patientId, total, None, None), found, AnyStatus(), AWAITING_SAMPLE);
    r := Ok(paymentId);
  }

  /** The saving steps shared by both ways of creating a payment: save the
      payment, move its `found` orders whose status satisfies `from` to
      `to`, and save one payment-order row per order. */
  method SavePayment(db: Database, payment: PaymentRow, found: seq<int>, from: Option<string> -> bool, to: string)
    returns (paymentId: int)
    requires db.payments.Issued() && db.labOrders.Issued() && db.paymentOrders.Issued()
    requires forall i :: 0 <= i < |found| ==> found[i] in db.labOrders.rows
    requires LabOrdersLinked(db.labOrders, db.testTypes, db.users)
    requires PaymentOrdersLinked(db.paymentOrders, db.payments, db.labOrders)
    modifies db`payments, db`labOrders, db`paymentOrders
    ensures db.payments.Issued() && db.labOrders.Issued() && db.paymentOrders.Issued()
    ensures LabOrdersLinked(db.labOrders, db.testTypes, db.users)
    ensures PaymentOrdersLinked(db.paymentOrders, db.payments, db.labOrders)
    ensures paymentId == old(db.payments.next)
    ensures db.payments == old(db.payments).Insert(payment)
    ensures db.labOrders == Moved(old(db.labOrders), found, from, to)
    ensures db.paymentOrders == old(db.paymentOrders).InsertAll(Links(paymentId, found))
  {
    paymentId := db.payments.next;
    db.payments := db.payments.Insert(payment);
    MovedKeepsLinks(db, db.labOrders, found, from, to);
    MoveOrders(db, found, from, to);
    NewLinksLinked(db.paymentOrders, db.payments, db.labOrders, paymentId, found);
    db.paymentOrders := db.paymentOrders.InsertAll(Links(paymentId, found));
  }

  /** The rows linking a stored payment to stored orders keep every link
      resolving. */
  lemma NewLinksLinked(links: Table<PaymentOrderRow>, payments: Table<PaymentRow>, labOrders: Table<LabOrderRow>,
                       paymentId: int, found: seq<int>)
    requires links.Issued() && PaymentOrdersLinked(links, payments, labOrders)
    requires paymentId in payments.rows && forall i :: 0 <= i < |found| ==> found[i] in labOrders.rows
    ensures PaymentOrdersLinked(links.InsertAll(Links(paymentId, found)), payments, labOrders)
  {
    var u := links.InsertAll(Links(paymentId, found));
    forall l | l in u.rows
      ensures u.rows[l].paymentId in payments.rows && u.rows[l].labOrderId in labOrders.rows
    {
      if l >= links.next {
        assert u.rows[l] == Links(paymentId, found)[l - links.next];
      }
    }
  }

  /** Linking distinct orders, none of them linked yet, keeps every order
      linked at most once. */
  lemma NewLinksKeepPaidOnce(links: Table<PaymentOrderRow>, ids: seq<int>, found: seq<int>, paymentId: int)
    requires links.Issued() && PaidOnce(links)
    requires forall i :: 0 <= i < |ids| ==> !AlreadyLinked(links, ids[i])
    requires forall k :: k in found ==> k in ids
    requires forall i, j :: 0 <= i < j < |found| ==> found[i] < found[j]
    ensures PaidOnce(links.InsertAll(Links(paymentId, found)))
  {
    var u := links.InsertAll(Links(paymentId, found));
    var n := links.next;
    forall x, y | x in u.rows && y in u.rows
      ensures u.rows[x].labOrderId == u.rows[y].labOrderId ==> x == y
    {
      NewLinkRow(links, ids, found, paymentId, x);
      NewLinkRow(links, ids, found, paymentId, y);
      if x >= n && y >= n && x != y {
        if x < y { assert found[x - n] < found[y - n]; }
        if y < x { assert found[y - n] < found[x - n]; }
      }
    }
  }

  /** A row of the linked table is an old row, or a new row whose order was
      not linked before. */
  lemma NewLinkRow(links: Table<PaymentOrderRow>, ids: seq<int>, found: seq<int>, paymentId: int, x: int)
    requires links.Issued()
    requires forall i :: 0 <= i < |ids| ==> !AlreadyLinked(links, ids[i])
    requires forall k :: k in found ==> k in ids
    requires x in links.InsertAll(Links(paymentId, found)).rows
    ensures var u, n := links.InsertAll(Links(paymentId, found)), links.next;
      && (x < n ==> x in links.rows && u.rows[x] == links.rows[x])
      && (x >= n ==> (
           && x - n < |found| && u.rows[x].labOrderId == found[x - n]
           && forall l :: l in links.rows ==> links.rows[l].labOrderId != found[x - n]))
  {
    var n := links.next;
    if x >= n {
      assert x !in links.rows;
      var o := found[x - n];
      assert o in found;
      var i :| 0 <= i < |ids| && ids[i] == o;
    }
  }

  // ---------------------------------------------------------------------
  // updatePaymentStatus and processPayment

  /** The lab orders a payment is linked to, in link-key order
      (`findByPaymentIdWithLabTestOrders`). */
  function OfPayment(paymentId: int): PaymentOrderRow -> bool {
    (l: PaymentOrderRow) => l.paymentId == paymentId
  }

  function LinkedOrders(links: Table<PaymentOrderRow>, paymentId: int): (r: seq<int>)
    requires links.Issued()
    ensures forall o :: o in r <==> exists l :: l in links.rows && links.rows[l].paymentId == paymentId && links.rows[l].labOrderId == o
  {
    var ls := links.Where(OfPayment(paymentId));
    var r := seq(|ls|, i requires 0 <= i < |ls| => links.rows[ls[i]].labOrderId);
    assert forall o :: o in r ==> exists l :: l in links.rows && links.rows[l].paymentId == paymentId && links.rows[l].labOrderId == o by {
      forall o | o in r
        ensures exists l :: l in links.rows && links.rows[l].paymentId == paymentId && links.rows[l].labOrderId == o
      {
        var i :| 0 <= i < |r| && r[i] == o;
        assert ls[i] in ls;
      }
    }
    assert forall l :: l in links.rows && links.rows[l].paymentId == paymentId ==> links.rows[l].labOrderId in r by {
      forall l | l in links.rows && links.rows[l].paymentId == paymentId
        ensures links.rows[l].labOrderId in r
      {
        assert l in ls;
        var i :| 0 <= i < |ls| && ls[i] == l;
        assert r[i] == links.rows[l].labOrderId;
      }
    }
    r
  }

  lemma LinkedOrdersStored(links: Table<PaymentOrderRow>, payments: Table<PaymentRow>, labOrders: Table<LabOrderRow>, paymentId: int)
    requires links.Issued() && PaymentOrdersLinked(links, payments, labOrders)
    ensures forall i :: 0 <= i < |LinkedOrders(links, paymentId)| ==> LinkedOrders(links, paymentId)[i] in labOrders.rows
  {
    var r := LinkedOrders(links, paymentId);
    forall i | 0 <= i < |r|
      ensures r[i] in labOrders.rows
    {
      assert r[i] in r;
    }
  }

  /** The orders after a payment's status changes: "Đã thanh toán" moves its
      orders awaiting payment to awaiting sample; any other status moves
      nothing. */
  function OrdersAfterStatus(labOrders: Table<LabOrderRow>, links: Table<PaymentOrderRow>, paymentId: int, status: Option<string>): (t: Table<LabOrderRow>)
    requires links.Issued()
    ensures status != Some(PAID) ==> t == labOrders
    ensures status == Some(PAID) ==> t == Moved(labOrders, LinkedOrders(links, paymentId), StatusIs(AWAITING_PAYMENT), AWAITING_SAMPLE)
  {
    if status == Some(PAID) then Moved(labOrders, LinkedOrders(links, paymentId), StatusIs(AWAITING_PAYMENT), AWAITING_SAMPLE)
    else labOrders
  }

  /** Only a linked order awaiting payment changes, and it changes to
      awaiting sample. */
  lemma OrdersAfterPaidMoveOnlyAwaiting(labOrders: Table<LabOrderRow>, links: Table<PaymentOrderRow>, paymentId: int, k: int)
    requires links.Issued() && k in labOrders.rows
    ensures var t := OrdersAfterStatus(labOrders, links, paymentId, Some(PAID));
      && k in t.rows
      && (t.rows[k] != labOrders.rows[k] <==>
           labOrders.rows[k].status == Some(AWAITING_PAYMENT) && k in LinkedOrders(links, paymentId))
      && (t.rows[k] != labOrders.rows[k] ==> t.rows[k].status == Some(AWAITING_SAMPLE))
  {
  }

  /** `updatePaymentStatus`. */
  method UpdatePaymentStatus(db: Database, paymentId: int, status: Option<string>) returns (r: Result<int>)
    requires db.paymentOrders.Issued() && PaymentOrdersLinked(db.paymentOrders, db.payments, db.labOrders)
    requires LabOrdersLinked(db.labOrders, db.testTypes, db.users)
    modifies db`payments, db`labOrders
    ensures PaymentOrdersLinked(db.paymentOrders, db.payments, db.labOrders)
    ensures LabOrdersLinked(db.labOrders, db.testTypes, db.users)
    ensures old(db.labOrders.Issued()) ==> db.labOrders.Issued()
    ensures old(db.payments.Issued()) ==> db.payments.Issued()
    ensures r.Err? <==> paymentId !in old(db.payments.rows)
    ensures r.Err? ==> (
      && r.error == ResourceNotFoundException
      && db.payments == old(db.payments) && db.labOrders == old(db.labOrders))
    ensures r.Ok? ==> (
      && r.value == paymentId
      && db.payments == old(db.payments).Put(paymentId, old(db.payments.rows)[paymentId].(status := status))
      && db.labOrders == OrdersAfterStatus(old(db.labOrders), db.paymentOrders, paymentId, status))
  {
    if paymentId !in db.payments.rows {
      return Err(ResourceNotFoundException);
    }
    var payment := db.payments.rows[paymentId].(status := status);
    if status == Some(PAID) {
      var linked := LinkedOrders(db.paymentOrders, paymentId);
      LinkedOrdersStored(db.paymentOrders, db.payments, db.labOrders, paymentId);
      MovedKeepsLinks(db, db.labOrders, linked, StatusIs(AWAITING_PAYMENT), AWAITING_SAMPLE);
      MoveOrders(db, linked, StatusIs(AWAITING_PAYMENT), AWAITING_SAMPLE);
    }
    db.payments := db.payments.Put(paymentId, payment);
    r := Ok(paymentId);
  }

  /** The field value after `updatePaymentTransaction`: the map's value
      when the key is present, else the current value. */
  function FieldOr(data: map<string, Option<string>>, key: string, current: Option<string>): Option<string> {
    if key in data then data[key] else current
  }

  /** The payment after the setters of `updatePaymentTransaction`: each
      setter runs only when its key is in the map, so exactly the fields
      named by the map change. */
  function WithTransaction(p: PaymentRow, data: map<string, Option<string>>): (q: PaymentRow)
    ensures q.transactionId == FieldOr(data, "transaction_id", p.transactionId)
    ensures q.transactionRef == FieldOr(data, "transaction_ref", p.transactionRef)
    ensures q.transactionDate == FieldOr(data, "transaction_date", p.transactionDate)
    ensures q.bankCode == FieldOr(data, "bank_code", p.bankCode)
    ensures q.cardType == FieldOr(data, "card_type", p.cardType)
    ensures q.responseCode == FieldOr(data, "response_code", p.responseCode)
    ensures q.secureHash == FieldOr(data, "secure_hash", p.secureHash)
    ensures q.status == FieldOr(data, "status", p.status)
    ensures q.patientId == p.patientId && q.totalAmount == p.totalAmount && q.paymentDate == p.paymentDate
    ensures q.paymentMethod == p.paymentMethod && q.notes == p.notes
    ensures q.invoiceGenerated == p.invoiceGenerated && q.createdAt == p.createdAt
  {
    p.(transactionId := FieldOr(data, "transaction_id", p.transactionId),
       transactionRef := FieldOr(data, "transaction_ref", p.transactionRef),
       transactionDate := FieldOr(data, "transaction_date", p.transactionDate),
       bankCode := FieldOr(data, "bank_code", p.bankCode),
       cardType := FieldOr(data, "card_type", p.cardType),
       responseCode := FieldOr(data, "response_code", p.responseCode),
       secureHash := FieldOr(data, "secure_hash", p.secureHash),
       status := FieldOr(data, "status", p.status))
  }

  /** An empty map changes nothing, and applying the same data twice is
      applying it once (a repeated gateway callback). */
  lemma WithTransactionIdempotent(p: PaymentRow, data: map<string, Option<string>>)
    ensures WithTransaction(p, map[]) == p
    ensures WithTransaction(WithTransaction(p, data), data) == WithTransaction(p, data)
  {
  }

  /** `updatePaymentTransaction`. */
  method UpdatePaymentTransaction(db: Database, paymentId: int, data: map<string, Option<string>>) returns (r: Result<int>)
    modifies db`payments
    ensures old(db.payments.Issued()) ==> db.payments.Issued()
    ensures r.Err? <==> paymentId !in old(db.payments.rows)
    ensures r.Err? ==> r.error == ResourceNotFoundException && db.payments == old(db.payments)
    ensures r.Ok? ==> (
      && r.value == paymentId
      && db.payments == old(db.payments).Put(paymentId, WithTransaction(old(db.payments.rows)[paymentId], data)))
  {
    if paymentId !in db.payments.rows {
      return Err(ResourceNotFoundException);
    }
    db.payments := db.payments.Put(paymentId, WithTransaction(db.payments.rows[paymentId], data));
    r := Ok(paymentId);
  }

  /** One entry of a payment split across methods; the method name and the
      amount may be null. */
  datatype MethodEntry = MethodEntry(name: Option<string>, amount: Option<int>)

  datatype ProcessRequest = ProcessRequest(
    paymentId: Option<int>, paymentMethods: Option<seq<MethodEntry>>, note: Option<string>)

  /** The sum of the entries' amounts (`reduce(ZERO, add)`); a null amount
      throws. */
  function SumAmounts(entries: seq<MethodEntry>): (r: Option<int>)
    ensures r.None? <==> exists i :: 0 <= i < |entries| && entries[i].amount.None?
  {
    if entries == [] then Some(0)
    else
      var rest := SumAmounts(entries[..|entries| - 1]);
      var last := entries[|entries| - 1];
      assert forall i :: 0 <= i < |entries| - 1 ==> entries[..|entries| - 1][i] == entries[i];
      if rest.None? || last.amount.None? then None else Some(rest.value + last.amount.value)
  }

  /** "method (amount)", with a null method name written "null". */
  function EntryText(e: MethodEntry): string
    requires e.amount.Some?
  {
    (if e.name.Some? then e.name.value else "null") + " (" + IntToString(e.amount.value) + ")"
  }

  /** The entries' texts joined with ", ", in request order. */
  function MethodsText(entries: seq<MethodEntry>): string
    requires forall i :: 0 <= i < |entries| ==> entries[i].amount.Some?
  {
    if entries == [] then ""
    else if |entries| == 1 then EntryText(entries[0])
    else MethodsText(entries[..|entries| - 1]) + ", " + EntryText(entries[|entries| - 1])
  }

  /** A single method gives its text alone; appending a method appends
      ", " and its text. */
  lemma MethodsTextShape(entries: seq<MethodEntry>, e: MethodEntry)
    requires forall i :: 0 <= i < |entries| ==> entries[i].amount.Some?
    requires e.amount.Some?
    ensures entries == [] ==> MethodsText(entries + [e]) == EntryText(e)
    ensures entries != [] ==> MethodsText(entries + [e]) == MethodsText(entries) + ", " + EntryText(e)
  {
    assert (entries + [e])[..|entries|] == entries;
  }

  /** The text of the first `i + 1` entries extends that of the first `i`. */
  lemma MethodsTextPrefix(entries: seq<MethodEntry>, i: nat)
    requires forall j :: 0 <= j < |entries| ==> entries[j].amount.Some?
    requires i < |entries|
    ensures i == 0 ==> MethodsText(entries[..i + 1]) == EntryText(entries[i])
    ensures i > 0 ==> MethodsText(entries[..i + 1]) == MethodsText(entries[..i]) + ", " + EntryText(entries[i])
  {
    assert entries[..i + 1] == entries[..i] + [entries[i]];
    MethodsTextShape(entries[..i], entries[i]);
  }

  /** The StringBuilder loop of `processPayment`. */
  method BuildMethodsText(entries: seq<MethodEntry>) returns (s: string)
    requires forall i :: 0 <= i < |entries| ==> entries[i].amount.Some?
    ensures s == MethodsText(entries)
  {
    s := "";
    var i := 0;
    while i < |entries|
      invariant 0 <= i <= |entries|
      invariant s == MethodsText(entries[..i])
    {
      MethodsTextPrefix(entries, i);
      if i > 0 {
        s := s + ", ";
      }
      s := s + EntryText(entries[i]);
      i := i + 1;
    }
    assert entries[..i] == entries;
  }

  /** The checks of `processPayment` as the corrected service makes them. */
  function ProcessError(payments: Table<PaymentRow>, req: ProcessRequest): (e: Option<Exception>)
    ensures req.paymentId.None? ==> e == Some(IllegalArgumentException)
    ensures req.paymentId.Some? && (req.paymentMethods.None? || req.paymentMethods.value == []) ==> e == Some(IllegalArgumentException)
    ensures e.None? <==>
      req.paymentId.Some? && req.paymentMethods.Some? && req.paymentMethods.value != []
      && req.paymentId.value in payments.rows
      && SumAmounts(req.paymentMethods.value).Some?
      && SumAmounts(req.paymentMethods.value).value >= payments.rows[req.paymentId.value].totalAmount
  {
    if req.paymentId.None? then Some(IllegalArgumentException)
    else if req.paymentMethods.None? || req.paymentMethods.value == [] then Some(IllegalArgumentException)
    else if req.paymentId.value !in payments.rows then Some(ResourceNotFoundException)
    else match SumAmounts(req.paymentMethods.value)
      case None => Some(NullPointerException)
      case Some(sum) =>
        if sum < payments.rows[req.paymentId.value].totalAmount then Some(IllegalArgumentException) else None
  }

  /** The same checks as written: the opening log statement reads the
      methods list's size, so a null list throws before the null check. */
  function ProcessErrorAsWritten(payments: Table<PaymentRow>, req: ProcessRequest): (e: Option<Exception>)
    ensures req.paymentMethods.None? ==> e == Some(NullPointerException)
    ensures req.paymentMethods.Some? ==> e == ProcessError(payments, req)
  {
    if req.paymentMethods.None? then Some(NullPointerException) else ProcessError(payments, req)
  }

  /** A null methods list: the code as written throws a
      `NullPointerException`, where its own null check means an
      `IllegalArgumentException`. */
  lemma NullMethodsFinding(payments: Table<PaymentRow>, paymentId: int, note: Option<string>)
    ensures ProcessErrorAsWritten(payments, ProcessRequest(Some(paymentId), None, note)) == Some(NullPointerException)
    ensures ProcessError(payments, ProcessRequest(Some(paymentId), None, note)) == Some(IllegalArgumentException)
  {
  }

  /** The payment after `processPayment` succeeds. */
  function Processed(p: PaymentRow, req: ProcessRequest, now: DateTime): (q: PaymentRow)
    requires req.paymentMethods.Some? && SumAmounts(req.paymentMethods.value).Some?
    ensures q.status == Some(PAID) && q.paymentDate == Some(now)
    ensures q.paymentMethod == Some(MethodsText(req.paymentMethods.value))
    ensures req.note.Some? && req.note.value != "" ==> q.notes == req.note
    ensures req.note.None? || req.note.value == "" ==> q.notes == p.notes
    ensures q.(status := p.status, paymentDate := p.paymentDate, paymentMethod := p.paymentMethod, notes := p.notes) == p
  {
    var q := p.(status := Some(PAID), paymentMethod := Some(MethodsText(req.paymentMethods.value)), paymentDate := Some(now));
    if req.note.Some? && req.note.value != "" then q.(notes := req.note) else q
  }

  /** `processPayment`, with `now` for `LocalDateTime.now()`. */
  method ProcessPayment(db: Database, req: ProcessRequest, now: DateTime) returns (r: Result<int>)
    requires db.paymentOrders.Issued() && PaymentOrdersLinked(db.paymentOrders, db.payments, db.labOrders)
    requires LabOrdersLinked(db.labOrders, db.testTypes, db.users)
    modifies db`payments, db`labOrders
    ensures PaymentOrdersLinked(db.paymentOrders, db.payments, db.labOrders)
    ensures LabOrdersLinked(db.labOrders, db.testTypes, db.users)
    ensures old(db.labOrders.Issued()) ==> db.labOrders.Issued()
    ensures old(db.payments.Issued()) ==> db.payments.Issued()
    ensures r.Err? <==> old(ProcessError(db.payments, req)).Some?
    ensures r.Err? ==> (
      && r.error == old(ProcessError(db.payments, req)).value
      && db.payments == old(db.payments) && db.labOrders == old(db.labOrders))
    ensures r.Ok? ==> (
      && r.value == req.paymentId.value
      && db.payments == old(db.payments).Put(r.value, Processed(old(db.payments.rows)[r.value], req, now))
      && db.labOrders == OrdersAfterStatus(old(db.labOrders), db.paymentOrders, r.value, Some(PAID)))
  {
    var e := ProcessError(db.payments, req);
    if e.Some? {
      return Err(e.value);
    }
    var paymentId := req.paymentId.value;
    var entries := req.paymentMethods.value;
    assert forall i :: 0 <= i < |entries| ==> entries[i].amount.Some?;
    var text := BuildMethodsText(entries);
    var payment := db.payments.rows[paymentId].(status := Some(PAID), paymentMethod := Some(text), paymentDate := Some(now));
    if req.note.Some? && req.note.value != "" {
      payment := payment.(notes := req.note);
    }
    db.payments := db.payments.Put(paymentId, payment);
    var linked := LinkedOrders(db.paymentOrders, paymentId);
    LinkedOrdersStored(db.paymentOrders, db.payments, db.labOrders, paymentId);
    MovedKeepsLinks(db, db.labOrders, linked, StatusIs(AWAITING_PAYMENT), AWAITING_SAMPLE);
    MoveOrders(db, linked, StatusIs(AWAITING_PAYMENT), AWAITING_SAMPLE);
    r := Ok(paymentId);
  }
}
