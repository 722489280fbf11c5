/** Lab-test results (LabTestResultServiceImpl).

    A result belongs to one lab-test order, and an order has at most one
    result (`lab_test_order_id` is unique). Entering a result for an order
    reuses the order's result when there is one and creates it otherwise;
    it is refused for an unknown order, for an order still awaiting its
    sample, and for an unknown entering user. Deleting a result first
    deletes its medical-record associations. The class is transactional,
    so a failure changes nothing.
 */
module LabResults {
  import opened Wrappers
  import opened Text
  import opened Dates
  import opened Tables
  import opened ClinicDb
  import RecordLabResults
  import LabOrders

  function OfOrder(orderId: int): LabResultRow -> bool {
    (r: LabResultRow) => r.orderId == orderId
  }

  /** `findByLabTestOrderId`: the order's result, which is the only one
      when results are one per order. */
  function ResultOfOrder(results: Table<LabResultRow>, orderId: int): (r: Option<int>)
    requires results.Issued()
    ensures r.None? <==> forall k :: k in results.rows ==> results.rows[k].orderId != orderId
    ensures r.Some? ==> r.value in results.rows && results.rows[r.value].orderId == orderId
    ensures r.Some? && OneResultPerOrder(results) ==>
      forall k :: k in results.rows && results.rows[k].orderId == orderId ==> k == r.value
  {
    results.First(OfOrder(orderId))
  }

  // ---------------------------------------------------------------------
  // Entering a result
  // ---------------------------------------------------------------------

  /** What both `createOrUpdateLabTestResult` overloads write into a
      result. */
  datatype ResultEntry = ResultEntry(
    resultData: Option<string>, conclusion: Option<string>, notes: Option<string>,
    attachmentsPath: Option<string>, enteredByUserId: Option<int>)

  /** The checks of `createOrUpdateLabTestResult`, in order: the order
      exists, its status is not "awaiting sample" (a null status fails the
      `equals` call), the entering user exists when one is given, and the
      result data is not null (`result_data` is NOT NULL). */
  function UpsertError(labOrders: Table<LabOrderRow>, users: Table<UserRow>, orderId: int, e: ResultEntry)
    : (err: Option<Exception>)
    ensures orderId !in labOrders.rows ==> err == Some(RuntimeException)
    ensures orderId in labOrders.rows && labOrders.rows[orderId].status.None? ==> err == Some(NullPointerException)
    ensures orderId in labOrders.rows && labOrders.rows[orderId].status == Some(AWAITING_SAMPLE) ==> err == Some(RuntimeException)
    ensures err.None? <==>
      orderId in labOrders.rows && labOrders.rows[orderId].status.Some?
      && labOrders.rows[orderId].status != Some(AWAITING_SAMPLE)
      && (e.enteredByUserId.Some? ==> e.enteredByUserId.value in users.rows)
      && e.resultData.Some?
  {
    if orderId !in labOrders.rows then Some(RuntimeException)
    else if labOrders.rows[orderId].status.None? then Some(NullPointerException)
    else if labOrders.rows[orderId].status == Some(AWAITING_SAMPLE) then Some(RuntimeException)
    else if e.enteredByUserId.Some? && e.enteredByUserId.value !in users.rows then Some(RuntimeException)
    else if e.resultData.None? then Some(DataIntegrityViolationException)
    else None
  }

  /** The row after the entry is written into an existing result. */
  function Entered(row: LabResultRow, e: ResultEntry, now: DateTime): LabResultRow
    requires e.resultData.Some?
  {
    row.(resultData := e.resultData.value, resultSummary := e.conclusion, notes := e.notes,
         attachmentsPath := e.attachmentsPath, enteredByUserId := e.enteredByUserId, updatedAt := now)
  }

  /** A new result for the order, dated and created now. */
  function Fresh(orderId: int, e: ResultEntry, now: DateTime): LabResultRow
    requires e.resultData.Some?
  {
    LabResultRow(orderId, Some(now), e.resultData.value, e.conclusion, e.attachmentsPath, e.notes,
                 e.enteredByUserId, now, now)
  }

  /** The row holds exactly what the entry set. */
  predicate Holds(row: LabResultRow, e: ResultEntry, now: DateTime) {
    e.resultData == Some(row.resultData) && row.resultSummary == e.conclusion && row.notes == e.notes
    && row.attachmentsPath == e.attachmentsPath && row.enteredByUserId == e.enteredByUserId && row.updatedAt == now
  }

  /** The results after the entry for the order is saved under `key`: the
      order's result is updated, or a fresh one is inserted. */
  predicate Upserted(before: Table<LabResultRow>, after: Table<LabResultRow>, orderId: int, e: ResultEntry,
                     now: DateTime, key: int)
    requires before.Issued() && e.resultData.Some?
  {
    match ResultOfOrder(before, orderId)
    case Some(k) => key == k && after == before.Put(k, Entered(before.rows[k], e, now))
    case None => key == before.next && after == before.Insert(Fresh(orderId, e, now))
  }

  /** After an entry, the order has exactly one result, it is the one
      saved, and it holds the entry; results stay one per order. */
  lemma UpsertedHolds(before: Table<LabResultRow>, after: Table<LabResultRow>, orderId: int, e: ResultEntry,
                      now: DateTime, key: int)
    requires before.Issued() && OneResultPerOrder(before) && e.resultData.Some?
    requires Upserted(before, after, orderId, e, now, key)
    ensures after.Issued() && OneResultPerOrder(after)
    ensures key in after.rows && after.rows[key].orderId == orderId && Holds(after.rows[key], e, now)
    ensures ResultOfOrder(after, orderId) == Some(key)
    ensures forall k :: k in before.rows && k != key ==> k in after.rows && after.rows[k] == before.rows[k]
  {
    match ResultOfOrder(before, orderId)
    case Some(k) => UpdatedHolds(before, k, e, now);
    case None => InsertedHolds(before, orderId, e, now);
  }

  lemma UpdatedHolds(before: Table<LabResultRow>, k: int, e: ResultEntry, now: DateTime)
    requires before.Issued() && OneResultPerOrder(before) && e.resultData.Some? && k in before.rows
    ensures var after := before.Put(k, Entered(before.rows[k], e, now));
      && OneResultPerOrder(after) && Holds(after.rows[k], e, now)
      && forall x :: x in after.rows ==> after.rows[x].orderId == before.rows[x].orderId
  {
    var after := before.Put(k, Entered(before.rows[k], e, now));
    assert forall x :: x in after.rows ==> after.rows[x].orderId == before.rows[x].orderId;
  }

  lemma InsertedHolds(before: Table<LabResultRow>, orderId: int, e: ResultEntry, now: DateTime)
    requires before.Issued() && OneResultPerOrder(before) && e.resultData.Some?
    requires forall k :: k in before.rows ==> before.rows[k].orderId != orderId
    ensures var after := before.Insert(Fresh(orderId, e, now));
      && OneResultPerOrder(after) && Holds(after.rows[before.next], e, now)
      && forall x :: x in after.rows && x != before.next ==> x in before.rows && after.rows[x] == before.rows[x]
  {
    var after := before.Insert(Fresh(orderId, e, now));
    assert forall x :: x in after.rows && x != before.next ==> x in before.rows && after.rows[x] == before.rows[x];
  }

  /** Both `createOrUpdateLabTestResult` overloads after the arguments are
      turned into an entry, with `now` for `LocalDateTime.now()`. The
      result is the key of the saved result. */
  method CreateOrUpdate(db: Database, orderId: int, e: ResultEntry, now: DateTime) returns (r: Result<int>)
    requires db.labResults.Issued() && OneResultPerOrder(db.labResults)
    requires ResultsLinked(db.labResults, db.labOrders, db.users)
    modifies db`labResults
    ensures db.labResults.Issued() && OneResultPerOrder(db.labResults)
    ensures ResultsLinked(db.labResults, db.labOrders, db.users)
    ensures r.Err? <==> UpsertError(db.labOrders, db.users, orderId, e).Some?
    ensures r.Err? ==> (r.error == UpsertError(db.labOrders, db.users, orderId, e).value
                        && db.labResults == old(db.labResults))
    ensures r.Ok? ==> (e.resultData.Some? && Upserted(old(db.labResults), db.labResults, orderId, e, now, r.value))
  {
    var err := UpsertError(db.labOrders, db.users, orderId, e);
    if err.Some? {
      return Err(err.value);
    }
    ghost var before := db.labResults;
    var existing := ResultOfOrder(db.labResults, orderId);
    if existing.Some? {
      db.labResults := db.labResults.Put(existing.value, Entered(db.labResults.rows[existing.value], e, now));
      r := Ok(existing.value);
    } else {
      r := Ok(db.labResults.next);
      db.labResults := db.labResults.Insert(Fresh(orderId, e, now));
    }
    UpsertedHolds(before, db.labResults, orderId, e, now, r.value);
  }

  /** The nine-argument overload's `result_data`: the four values pasted
      into a fixed JSON template, a null printed as "null". */
  function ResultJson(value: Option<string>, unit: Option<string>, referenceRange: Option<string>,
                      conclusion: Option<string>): (s: string)
    ensures StartsWith(s, "{\"value\":\"") && s[|s| - 2..] == "\"}"
  {
    "{\"value\":\"" + StringOf(value) + "\",\"unit\":\"" + StringOf(unit)
    + "\",\"referenceRange\":\"" + StringOf(referenceRange)
    + "\",\"conclusion\":\"" + StringOf(conclusion) + "\"}"
  }

  /** Raw substitution is not injective: a quote in one value can imitate
      the next key, so two different inputs give the same data. */
  lemma ResultJsonAmbiguous()
    ensures ResultJson(Some("a\",\"unit\":\"b"), Some("c"), None, None)
         == ResultJson(Some("a"), Some("b\",\"unit\":\"c"), None, None)
    ensures Some("a\",\"unit\":\"b") != Some("a")
  {
  }

  /** The nine-argument `createOrUpdateLabTestResult`; its `status`
      argument is not used. */
  method CreateOrUpdateFromParts(db: Database, orderId: int, value: Option<string>, unit: Option<string>,
                                 referenceRange: Option<string>, notes: Option<string>, conclusion: Option<string>,
                                 status: Option<string>, attachmentsPath: Option<string>, enteredByUserId: Option<int>,
                                 now: DateTime)
    returns (r: Result<int>)
    requires db.labResults.Issued() && OneResultPerOrder(db.labResults)
    requires ResultsLinked(db.labResults, db.labOrders, db.users)
    modifies db`labResults
    ensures db.labResults.Issued() && OneResultPerOrder(db.labResults)
    ensures ResultsLinked(db.labResults, db.labOrders, db.users)
    ensures var e := ResultEntry(Some(ResultJson(value, unit, referenceRange, conclusion)), conclusion, notes,
                                 attachmentsPath, enteredByUserId);
      && (r.Err? <==> UpsertError(db.labOrders, db.users, orderId, e).Some?)
      && (r.Err? ==> r.error == UpsertError(db.labOrders, db.users, orderId, e).value
                     && db.labResults == old(db.labResults))
      && (r.Ok? ==> Upserted(old(db.labResults), db.labResults, orderId, e, now, r.value))
  {
    var e := ResultEntry(Some(ResultJson(value, unit, referenceRange, conclusion)), conclusion, notes,
                         attachmentsPath, enteredByUserId);
    r := CreateOrUpdate(db, orderId, e, now);
  }

  /** `createOrUpdateLabTestResult` with the data given as a JSON string. */
  method CreateOrUpdateLabTestResult(db: Database, orderId: int, resultDataJson: Option<string>,
                                     conclusion: Option<string>, notes: Option<string>,
                                     attachmentsPath: Option<string>, enteredByUserId: Option<int>, now: DateTime)
    returns (r: Result<int>)
    requires db.labResults.Issued() && OneResultPerOrder(db.labResults)
    requires ResultsLinked(db.labResults, db.labOrders, db.users)
    modifies db`labResults
    ensures db.labResults.Issued() && OneResultPerOrder(db.labResults)
    ensures ResultsLinked(db.labResults, db.labOrders, db.users)
    ensures var e := ResultEntry(resultDataJson, conclusion, notes, attachmentsPath, enteredByUserId);
      && (r.Err? <==> UpsertError(db.labOrders, db.users, orderId, e).Some?)
      && (r.Err? ==> r.error == UpsertError(db.labOrders, db.users, orderId, e).value
                     && db.labResults == old(db.labResults))
      && (r.Ok? ==> resultDataJson.Some? && Upserted(old(db.labResults), db.labResults, orderId, e, now, r.value))
  {
    r := CreateOrUpdate(db, orderId, ResultEntry(resultDataJson, conclusion, notes, attachmentsPath, enteredByUserId), now);
  }

  // ---------------------------------------------------------------------
  // Updates and deletion
  // ---------------------------------------------------------------------

  /** The fields of `updateLabTestResult`'s argument that it copies. */
  datatype ResultDetails = ResultDetails(
    resultData: Option<string>, resultSummary: Option<string>, attachmentsPath: Option<string>, notes: Option<string>)

  /** `updateLabTestResult`: the data, summary and notes are replaced, the
      attachments path only by a non-null one. A null data fails at the
      NOT NULL column. */
  method UpdateLabTestResult(db: Database, id: int, details: ResultDetails, now: DateTime) returns (r: Result<int>)
    requires db.labResults.Issued() && OneResultPerOrder(db.labResults)
    requires ResultsLinked(db.labResults, db.labOrders, db.users)
    modifies db`labResults
    ensures db.labResults.Issued() && OneResultPerOrder(db.labResults)
    ensures ResultsLinked(db.labResults, db.labOrders, db.users)
    ensures r.Err? <==> id !in old(db.labResults.rows) || details.resultData.None?
    ensures id !in old(db.labResults.rows) ==> r == Err(RuntimeException)
    ensures id in old(db.labResults.rows) && details.resultData.None? ==> r == Err(DataIntegrityViolationException)
    ensures r.Err? ==> db.labResults == old(db.labResults)
    ensures r.Ok? ==>
      var row := old(db.labResults.rows[id]);
      && r.value == id
      && db.labResults == old(db.labResults).Put(id, row.(
           resultData := details.resultData.value, resultSummary := details.resultSummary,
           attachmentsPath := if details.attachmentsPath.Some? then details.attachmentsPath else row.attachmentsPath,
           notes := details.notes, updatedAt := now))
  {
    if id !in db.labResults.rows {
      return Err(RuntimeException);
    }
    if details.resultData.None? {
      return Err(DataIntegrityViolationException);
    }
    var row := db.labResults.rows[id];
    var path := if details.attachmentsPath.Some? then details.attachmentsPath else row.attachmentsPath;
    ghost var before := db.labResults;
    db.labResults := db.labResults.Put(id, row.(resultData := details.resultData.value, resultSummary := details.resultSummary,
                                                attachmentsPath := path, notes := details.notes, updatedAt := now));
    assert forall x :: x in db.labResults.rows ==>
      db.labResults.rows[x].orderId == before.rows[x].orderId
      && db.labResults.rows[x].enteredByUserId == before.rows[x].enteredByUserId;
    r := Ok(id);
  }

  /** `updateAttachmentsPath`: the path is replaced, a null one included. */
  method UpdateAttachmentsPath(db: Database, id: int, path: Option<string>, now: DateTime) returns (r: Result<int>)
    requires db.labResults.Issued() && OneResultPerOrder(db.labResults)
    requires ResultsLinked(db.labResults, db.labOrders, db.users)
    modifies db`labResults
    ensures db.labResults.Issued() && OneResultPerOrder(db.labResults)
    ensures ResultsLinked(db.labResults, db.labOrders, db.users)
    ensures r.Err? <==> id !in old(db.labResults.rows)
    ensures r.Err? ==> r.error == RuntimeException && db.labResults == old(db.labResults)
    ensures r.Ok? ==> (
      && r.value == id
      && db.labResults == old(db.labResults).Put(id, old(db.labResults.rows[id]).(attachmentsPath := path, updatedAt := now)))
  {
    if id !in db.labResults.rows {
      return Err(RuntimeException);
    }
    ghost var before := db.labResults;
    db.labResults := db.labResults.Put(id, db.labResults.rows[id].(attachmentsPath := path, updatedAt := now));
    assert forall x :: x in db.labResults.rows ==>
      db.labResults.rows[x].orderId == before.rows[x].orderId
      && db.labResults.rows[x].enteredByUserId == before.rows[x].enteredByUserId;
    r := Ok(id);
  }

  /** `deleteLabTestResult`: its associations are deleted one by one, then
      the result (`deleteById` ignores a missing id). */
  method DeleteLabTestResult(db: Database, id: int)
    requires db.recordLabs.Issued() && UniquePairs(db.recordLabs)
    requires RecordLabsLinked(db.recordLabs, db.records, db.labResults)
    requires db.labResults.Issued() && OneResultPerOrder(db.labResults)
    requires ResultsLinked(db.labResults, db.labOrders, db.users)
    modifies db`recordLabs, db`labResults
    ensures db.recordLabs.Issued() && UniquePairs(db.recordLabs)
    ensures RecordLabsLinked(db.recordLabs, db.records, db.labResults)
    ensures db.labResults.Issued() && OneResultPerOrder(db.labResults)
    ensures ResultsLinked(db.labResults, db.labOrders, db.users)
    ensures db.recordLabs == old(db.recordLabs).Delete(RecordLabResults.OfResult(id))
    ensures db.labResults == old(db.labResults).DeleteKey(id)
  {
    DeleteAssociationsOf(db, id);
    db.labResults := db.labResults.DeleteKey(id);
  }

  /** The `forEach` of `deleteLabTestResult` over the result's
      associations. */
  method DeleteAssociationsOf(db: Database, id: int)
    requires db.recordLabs.Issued() && UniquePairs(db.recordLabs)
    modifies db`recordLabs
    ensures db.recordLabs.Issued() && UniquePairs(db.recordLabs)
    ensures db.recordLabs == old(db.recordLabs).Delete(RecordLabResults.OfResult(id))
  {
    ghost var before := db.recordLabs;
    var links := RecordLabResults.AssociationsOfResult(db.recordLabs, id);
    var i := 0;
    while i < |links|
      invariant 0 <= i <= |links|
      invariant db.recordLabs.next == before.next
      invariant db.recordLabs.rows == before.rows - set j | 0 <= j < i :: links[j]
      invariant db.recordLabs.Issued() && UniquePairs(db.recordLabs)
    {
      ghost var gone := set j | 0 <= j < i :: links[j];
      assert (set j | 0 <= j < i + 1 :: links[j]) == gone + {links[i]};
      db.recordLabs := db.recordLabs.DeleteKey(links[i]);
      i := i + 1;
    }
    ghost var gone := set j | 0 <= j < |links| :: links[j];
    assert forall k :: k in gone <==> k in before.rows && before.rows[k].resultId == id by {
      forall k ensures k in gone <==> k in before.rows && before.rows[k].resultId == id {
        if k in links {
          var j :| 0 <= j < |links| && links[j] == k;
          assert k in gone;
        }
      }
    }
    assert db.recordLabs.rows == Without(before.rows, RecordLabResults.OfResult(id));
  }

  /** `associateWithMedicalRecord`: the same checks and the same new
      association as `createAssociation` (it checks the result before the
      record; both failures are a `RuntimeException`). */
  method AssociateWithMedicalRecord(db: Database, resultId: int, recordId: int, interpretation: Option<string>,
                                    now: DateTime)
    returns (r: Result<()>)
    requires db.recordLabs.Issued() && UniquePairs(db.recordLabs)
    requires RecordLabsLinked(db.recordLabs, db.records, db.labResults)
    modifies db`recordLabs
    ensures db.recordLabs.Issued() && UniquePairs(db.recordLabs)
    ensures RecordLabsLinked(db.recordLabs, db.records, db.labResults)
    ensures r.Err? <==>
      resultId !in old(db.labResults.rows) || recordId !in old(db.records.rows)
      || RecordLabResults.Associated(old(db.recordLabs), recordId, resultId)
    ensures r.Err? ==> r.error == RuntimeException && db.recordLabs == old(db.recordLabs)
    ensures r.Ok? ==> db.recordLabs == old(db.recordLabs).Insert(RecordLabRow(recordId, resultId, interpretation, now))
  {
    var a := RecordLabResults.CreateAssociation(db, recordId, resultId, interpretation, now);
    match a
    case Err(e) => r := Err(e);
    case Ok(_) => r := Ok(());
  }

  /** `updateOrderStatus` of this service, which is the order service's. */
  method UpdateOrderStatus(db: Database, orderId: int, status: Option<string>) returns (r: Result<()>)
    requires db.labOrders.Issued() && LabOrdersLinked(db.labOrders, db.testTypes, db.users)
    requires PaymentOrdersLinked(db.paymentOrders, db.payments, db.labOrders)
    modifies db`labOrders
    ensures db.labOrders.Issued() && LabOrdersLinked(db.labOrders, db.testTypes, db.users)
    ensures PaymentOrdersLinked(db.paymentOrders, db.payments, db.labOrders)
    ensures r.Err? <==> orderId !in old(db.labOrders.rows)
    ensures r.Err? ==> r.error == RuntimeException && db.labOrders == old(db.labOrders)
    ensures r.Ok? ==> db.labOrders == old(db.labOrders).Put(orderId, old(db.labOrders.rows[orderId]).(status := status))
  {
    var u := LabOrders.UpdateOrderStatus(db, orderId, status);
    match u
    case Err(e) => r := Err(e);
    case Ok(_) => r := Ok(());
  }

  // ---------------------------------------------------------------------
  // Queries
  // ---------------------------------------------------------------------

  /** A result of the patient's orders of the test type (the join drops a
      result whose order is missing). */
  function OfPatientTest(labOrders: map<int, LabOrderRow>, patientId: int, testTypeId: int): LabResultRow -> bool {
    (r: LabResultRow) => r.orderId in labOrders && labOrders[r.orderId].patientId == patientId
      && labOrders[r.orderId].testTypeId == testTypeId
  }

  /** `a` comes strictly before `b` in `ORDER BY result_date DESC`, where a
      null date sorts last. */
  predicate Later(a: Option<DateTime>, b: Option<DateTime>) {
    a.Some? && (b.None? || Earlier(b.value, a.value))
  }

  lemma LaterTransitive(a: Option<DateTime>, b: Option<DateTime>, c: Option<DateTime>)
    requires Later(a, b) && Later(b, c)
    ensures Later(a, c)
  {
    if c.Some? {
      EarlierTransitive(c.value, b.value, a.value);
    }
  }

  /** The first of `keys` in descending result-date order (the earliest
      listed among equal dates). */
  function Latest(m: map<int, LabResultRow>, keys: seq<int>): (r: Option<int>)
    requires forall i :: 0 <= i < |keys| ==> keys[i] in m
    ensures r.None? <==> keys == []
    ensures r.Some? ==> r.value in keys
    ensures r.Some? ==> forall i :: 0 <= i < |keys| ==> !Later(m[keys[i]].resultDate, m[r.value].resultDate)
  {
    if keys == [] then None
    else
      var rest := Latest(m, keys[..|keys| - 1]);
      var k := keys[|keys| - 1];
      if rest.None? then
        Some(k)
      else if Later(m[k].resultDate, m[rest.value].resultDate) then
        assert forall i :: 0 <= i < |keys| - 1 ==> keys[i] == keys[..|keys| - 1][i];
        forall i | 0 <= i < |keys| - 1
          ensures !Later(m[keys[i]].resultDate, m[k].resultDate)
        {
          if Later(m[keys[i]].resultDate, m[k].resultDate) {
            LaterTransitive(m[keys[i]].resultDate, m[k].resultDate, m[rest.value].resultDate);
          }
        }
        Some(k)
      else
        assert forall i :: 0 <= i < |keys| - 1 ==> keys[i] == keys[..|keys| - 1][i];
        rest
  }

  /** `findLatestByPatientIdAndTestTypeId`: empty when the patient has no
      result of the test type, and otherwise one of them that no other
      comes before in descending result-date order. */
  function FindLatest(labOrders: Table<LabOrderRow>, results: Table<LabResultRow>, patientId: int, testTypeId: int)
    : (r: Option<int>)
    requires results.Issued()
    ensures r.None? <==> forall k :: k in results.rows ==> !OfPatientTest(labOrders.rows, patientId, testTypeId)(results.rows[k])
    ensures r.Some? ==> r.value in results.rows && OfPatientTest(labOrders.rows, patientId, testTypeId)(results.rows[r.value])
    ensures r.Some? ==> forall k :: k in results.rows && OfPatientTest(labOrders.rows, patientId, testTypeId)(results.rows[k]) ==>
      !Later(results.rows[k].resultDate, results.rows[r.value].resultDate)
  {
    var ks := results.Where(OfPatientTest(labOrders.rows, patientId, testTypeId));
    var r := Latest(results.rows, ks);
    assert r.None? ==> ks == [];
    assert forall k :: k in results.rows && OfPatientTest(labOrders.rows, patientId, testTypeId)(results.rows[k]) ==> k in ks;
    r
  }

  /** What the loop adds for one order: its result, if it has one. */
  function ResultList(results: Table<LabResultRow>, orderId: int): seq<int>
    requires results.Issued()
  {
    match ResultOfOrder(results, orderId)
    case Some(k) => [k]
    case None => []
  }

  /** The results of `orders`, in order, skipping an order without one. */
  function CompleteOf(results: Table<LabResultRow>, orders: seq<int>): seq<int>
    requires results.Issued()
  {
    if orders == [] then []
    else CompleteOf(results, orders[..|orders| - 1]) + ResultList(results, orders[|orders| - 1])
  }

  /** With one result per order, an order's list holds exactly its
      result. */
  lemma ResultListMembers(results: Table<LabResultRow>, orderId: int, k: int)
    requires results.Issued() && OneResultPerOrder(results)
    ensures k in ResultList(results, orderId) <==> k in results.rows && results.rows[k].orderId == orderId
  {
  }

  /** With one result per order, a key is listed for `orders` exactly when
      it is the result of one of them. */
  lemma {:induction false} CompleteOfMembers(results: Table<LabResultRow>, orders: seq<int>, k: int)
    requires results.Issued() && OneResultPerOrder(results)
    ensures k in CompleteOf(results, orders) <==> k in results.rows && results.rows[k].orderId in orders
  {
    if orders != [] {
      var init := orders[..|orders| - 1];
      CompleteOfMembers(results, init, k);
      ResultListMembers(results, orders[|orders| - 1], k);
      assert orders == init + [orders[|orders| - 1]];
    }
  }

  /** `findCompleteResultsWithDetails`: the loop over the orders with a
      result ("Có kết quả"), collecting each order's result when it has
      one. */
  method FindCompleteResultsWithDetails(db: Database) returns (found: seq<int>)
    requires db.labOrders.Issued() && db.labResults.Issued()
    ensures found == CompleteOf(db.labResults, LabOrders.OrdersByStatus(db.labOrders, Some(HAS_RESULT)))
  {
    var completed := LabOrders.OrdersByStatus(db.labOrders, Some(HAS_RESULT));
    var results := db.labResults;
    found := [];
    var i := 0;
    while i < |completed|
      invariant 0 <= i <= |completed|
      invariant found == CompleteOf(results, completed[..i])
    {
      var result := ResultOfOrder(results, completed[i]);
      CompleteOfSnoc(results, completed, i);
      if result.Some? {
        found := found + [result.value];
      }
      i := i + 1;
    }
    assert completed[..i] == completed;
  }

  /** One more order adds its result list. */
  lemma CompleteOfSnoc(results: Table<LabResultRow>, orders: seq<int>, i: int)
    requires results.Issued() && 0 <= i < |orders|
    ensures CompleteOf(results, orders[..i + 1]) == CompleteOf(results, orders[..i]) + ResultList(results, orders[i])
  {
    assert orders[..i + 1][..i] == orders[..i];
  }

  /** With one result per order, the complete results are exactly the
      results whose order has a result. */
  lemma CompleteResultsExactly(labOrders: Table<LabOrderRow>, results: Table<LabResultRow>)
    requires labOrders.Issued() && results.Issued() && OneResultPerOrder(results)
    ensures var found := CompleteOf(results, LabOrders.OrdersByStatus(labOrders, Some(HAS_RESULT)));
      forall k :: k in found <==>
        k in results.rows && results.rows[k].orderId in labOrders.rows
        && labOrders.rows[results.rows[k].orderId].status == Some(HAS_RESULT)
  {
    var completed := LabOrders.OrdersByStatus(labOrders, Some(HAS_RESULT));
    forall k
      ensures k in CompleteOf(results, completed) <==>
        k in results.rows && results.rows[k].orderId in labOrders.rows
        && labOrders.rows[results.rows[k].orderId].status == Some(HAS_RESULT)
    {
      CompleteOfMembers(results, completed, k);
    }
  }
}
