/** The association of medical records and lab results
    (MedicalRecordLabResultServiceImpl).

    An association joins a stored record and a stored result, and a pair
    is associated at most once: creation refuses an existing pair, and the
    table has a unique constraint on the pair. Every failure is a
    `RuntimeException`.
 */
module RecordLabResults {
  import opened Wrappers
  import opened Dates
  import opened Tables
  import opened ClinicDb

  /** The association rows of one (record, result) pair. */
  function PairOf(recordId: int, resultId: int): RecordLabRow -> bool {
    (l: RecordLabRow) => l.recordId == recordId && l.resultId == resultId
  }

  function OfRecord(recordId: int): RecordLabRow -> bool {
    (l: RecordLabRow) => l.recordId == recordId
  }

  function OfResult(resultId: int): RecordLabRow -> bool {
    (l: RecordLabRow) => l.resultId == resultId
  }

  /** `findByMedicalRecordIdAndLabTestResultId`: with unique pairs, the one
      association of the pair when there is one. */
  function FindPair(links: Table<RecordLabRow>, recordId: int, resultId: int): (r: Option<int>)
    requires links.Issued()
    ensures r.None? <==> forall k :: k in links.rows ==> !PairOf(recordId, resultId)(links.rows[k])
    ensures r.Some? ==> (r.value in links.rows && links.rows[r.value].recordId == recordId
      && links.rows[r.value].resultId == resultId)
    ensures r.Some? && UniquePairs(links) ==>
      forall k :: k in links.rows && PairOf(recordId, resultId)(links.rows[k]) ==> k == r.value
  {
    links.First(PairOf(recordId, resultId))
  }

  /** `existsByMedicalRecordIdAndLabTestResultId`. */
  predicate Associated(links: Table<RecordLabRow>, recordId: int, resultId: int) {
    exists k :: k in links.rows && links.rows[k].recordId == recordId && links.rows[k].resultId == resultId
  }

  /** The checks of `createAssociation`, in order: the record, the result,
      then the pair. */
  function CreateError(records: Table<MedicalRecordRow>, results: Table<LabResultRow>, links: Table<RecordLabRow>,
                       recordId: int, resultId: int): (e: Option<Exception>)
    ensures e.Some? ==> e.value == RuntimeException
    ensures e.None? <==> recordId in records.rows && resultId in results.rows && !Associated(links, recordId, resultId)
  {
    if recordId !in records.rows || resultId !in results.rows || Associated(links, recordId, resultId)
    then Some(RuntimeException) else None
  }

  /** Inserting a pair that is not yet associated keeps pairs unique. */
  lemma InsertKeepsUniquePairs(links: Table<RecordLabRow>, row: RecordLabRow)
    requires links.Issued() && UniquePairs(links) && !Associated(links, row.recordId, row.resultId)
    ensures UniquePairs(links.Insert(row))
  {
    var t := links.Insert(row);
    assert forall x :: x in t.rows && x != links.next ==> x in links.rows && t.rows[x] == links.rows[x];
  }

  /** `createAssociation`, with `now` for the creation time. The result is
      the new association's key. */
  method CreateAssociation(db: Database, recordId: int, resultId: int, interpretation: Option<string>, now: DateTime)
    returns (r: Result<int>)
    requires db.recordLabs.Issued() && UniquePairs(db.recordLabs)
    requires RecordLabsLinked(db.recordLabs, db.records, db.labResults)
    modifies db`recordLabs
    ensures db.recordLabs.Issued() && UniquePairs(db.recordLabs)
    ensures RecordLabsLinked(db.recordLabs, db.records, db.labResults)
    ensures r.Err? <==> old(CreateError(db.records, db.labResults, db.recordLabs, recordId, resultId)).Some?
    ensures r.Err? ==> r.error == RuntimeException && db.recordLabs == old(db.recordLabs)
    ensures r.Ok? ==> (
      && r.value == old(db.recordLabs.next)
      && db.recordLabs == old(db.recordLabs).Insert(RecordLabRow(recordId, resultId, interpretation, now))
      && FindPair(db.recordLabs, recordId, resultId) == Some(r.value))
  {
    if CreateError(db.records, db.labResults, db.recordLabs, recordId, resultId).Some? {
      return Err(RuntimeException);
    }
    var row := RecordLabRow(recordId, resultId, interpretation, now);
    InsertKeepsUniquePairs(db.recordLabs, row);
    r := Ok(db.recordLabs.next);
    db.recordLabs := db.recordLabs.Insert(row);
  }

  /** Once a pair is associated, a second creation for it is refused. */
  lemma SecondCreateRefused(records: Table<MedicalRecordRow>, results: Table<LabResultRow>, links: Table<RecordLabRow>,
                            recordId: int, resultId: int, interpretation: Option<string>, now: DateTime)
    ensures CreateError(records, results, links.Insert(RecordLabRow(recordId, resultId, interpretation, now)),
                        recordId, resultId) == Some(RuntimeException)
  {
    var t := links.Insert(RecordLabRow(recordId, resultId, interpretation, now));
    assert t.rows[links.next].recordId == recordId && t.rows[links.next].resultId == resultId;
  }

  /** `updateInterpretation`: only the interpretation of the pair's
      association changes; a missing pair is an error. */
  method UpdateInterpretation(db: Database, recordId: int, resultId: int, interpretation: Option<string>)
    returns (r: Result<int>)
    requires db.recordLabs.Issued() && UniquePairs(db.recordLabs)
    requires RecordLabsLinked(db.recordLabs, db.records, db.labResults)
    modifies db`recordLabs
    ensures db.recordLabs.Issued() && UniquePairs(db.recordLabs)
    ensures RecordLabsLinked(db.recordLabs, db.records, db.labResults)
    ensures r.Err? <==> !Associated(old(db.recordLabs), recordId, resultId)
    ensures r.Err? ==> r.error == RuntimeException && db.recordLabs == old(db.recordLabs)
    ensures r.Ok? ==> (
      && r.value in old(db.recordLabs.rows)
      && old(FindPair(db.recordLabs, recordId, resultId)) == Some(r.value)
      && db.recordLabs == old(db.recordLabs).Put(r.value, old(db.recordLabs.rows[r.value]).(interpretation := interpretation)))
  {
    var k := FindPair(db.recordLabs, recordId, resultId);
    if k.None? {
      return Err(RuntimeException);
    }
    ghost var before := db.recordLabs;
    db.recordLabs := db.recordLabs.Put(k.value, db.recordLabs.rows[k.value].(interpretation := interpretation));
    assert forall x :: x in db.recordLabs.rows ==>
      db.recordLabs.rows[x].recordId == before.rows[x].recordId && db.recordLabs.rows[x].resultId == before.rows[x].resultId;
    r := Ok(k.value);
  }

  /** `deleteAssociation`: exactly the pair's association goes; a missing
      pair is an error. */
  method DeleteAssociation(db: Database, recordId: int, resultId: int) returns (r: Result<()>)
    requires db.recordLabs.Issued() && UniquePairs(db.recordLabs)
    requires RecordLabsLinked(db.recordLabs, db.records, db.labResults)
    modifies db`recordLabs
    ensures db.recordLabs.Issued() && UniquePairs(db.recordLabs)
    ensures RecordLabsLinked(db.recordLabs, db.records, db.labResults)
    ensures r.Err? <==> !Associated(old(db.recordLabs), recordId, resultId)
    ensures r.Err? ==> r.error == RuntimeException && db.recordLabs == old(db.recordLabs)
    ensures r.Ok? ==> (
      && db.recordLabs == old(db.recordLabs).Delete(PairOf(recordId, resultId))
      && !Associated(db.recordLabs, recordId, resultId)
      && |old(db.recordLabs.rows).Keys - db.recordLabs.rows.Keys| == 1)
  {
    var k := FindPair(db.recordLabs, recordId, resultId);
    if k.None? {
      return Err(RuntimeException);
    }
    ghost var before := db.recordLabs;
    db.recordLabs := db.recordLabs.DeleteKey(k.value);
    assert db.recordLabs == before.Delete(PairOf(recordId, resultId));
    assert before.rows.Keys - db.recordLabs.rows.Keys == {k.value};
    r := Ok(());
  }

  /** `deleteAllByMedicalRecordId`: every association of the record goes,
      and no other. */
  method DeleteAllByMedicalRecordId(db: Database, recordId: int)
    requires db.recordLabs.Issued() && UniquePairs(db.recordLabs)
    requires RecordLabsLinked(db.recordLabs, db.records, db.labResults)
    modifies db`recordLabs
    ensures db.recordLabs.Issued() && UniquePairs(db.recordLabs)
    ensures RecordLabsLinked(db.recordLabs, db.records, db.labResults)
    ensures db.recordLabs == old(db.recordLabs).Delete(OfRecord(recordId))
    ensures forall k :: k in db.recordLabs.rows ==> db.recordLabs.rows[k].recordId != recordId
    ensures forall k :: k in old(db.recordLabs.rows) && old(db.recordLabs.rows[k]).recordId != recordId ==>
      k in db.recordLabs.rows && db.recordLabs.rows[k] == old(db.recordLabs.rows[k])
  {
    db.recordLabs := db.recordLabs.Delete(OfRecord(recordId));
  }

  /** `deleteAllByLabTestResultId`: every association of the result goes,
      and no other. */
  method DeleteAllByLabTestResultId(db: Database, resultId: int)
    requires db.recordLabs.Issued() && UniquePairs(db.recordLabs)
    requires RecordLabsLinked(db.recordLabs, db.records, db.labResults)
    modifies db`recordLabs
    ensures db.recordLabs.Issued() && UniquePairs(db.recordLabs)
    ensures RecordLabsLinked(db.recordLabs, db.records, db.labResults)
    ensures db.recordLabs == old(db.recordLabs).Delete(OfResult(resultId))
    ensures forall k :: k in db.recordLabs.rows ==> db.recordLabs.rows[k].resultId != resultId
    ensures forall k :: k in old(db.recordLabs.rows) && old(db.recordLabs.rows[k]).resultId != resultId ==>
      k in db.recordLabs.rows && db.recordLabs.rows[k] == old(db.recordLabs.rows[k])
  {
    db.recordLabs := db.recordLabs.Delete(OfResult(resultId));
  }

  /** `findByMedicalRecordId`. */
  function AssociationsOfRecord(links: Table<RecordLabRow>, recordId: int): (r: seq<int>)
    requires links.Issued()
    ensures forall k :: k in r <==> k in links.rows && links.rows[k].recordId == recordId
  {
    links.Where(OfRecord(recordId))
  }

  /** `findByLabTestResultId`. */
  function AssociationsOfResult(links: Table<RecordLabRow>, resultId: int): (r: seq<int>)
    requires links.Issued()
    ensures forall k :: k in r <==> k in links.rows && links.rows[k].resultId == resultId
  {
    links.Where(OfResult(resultId))
  }

  /** With unique pairs, the associations of a record name distinct
      results. */
  lemma RecordResultsDistinct(links: Table<RecordLabRow>, recordId: int)
    requires links.Issued() && UniquePairs(links)
    ensures var ks := AssociationsOfRecord(links, recordId);
      forall i, j :: 0 <= i < j < |ks| ==> links.rows[ks[i]].resultId != links.rows[ks[j]].resultId
  {
    var ks := AssociationsOfRecord(links, recordId);
    forall i, j | 0 <= i < j < |ks| ensures links.rows[ks[i]].resultId != links.rows[ks[j]].resultId {
      assert ks[i] in ks && ks[j] in ks;
      assert ks[i] < ks[j];
    }
  }
}
