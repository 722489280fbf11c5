/** Medical records (MedicalRecordServiceImpl).

    A record belongs to a stored patient and may name a doctor and a
    primary treatment protocol. Creation and update look these up and fail
    with `ResourceNotFoundException` when one is missing; a record without
    a visit date is refused by the database. The timestamps are the
    auditing listener's: both are `now` on creation, and `updatedAt` is
    `now` on every change. Deleting a record cascades to its prescriptions
    (with their items, the items' medication reminders and the
    prescriptions' reminders) and to its reminders; an association with a
    lab result has no cascade and blocks the delete.
 */
module MedicalRecords {
  import opened Wrappers
  import opened Dates
  import opened Tables
  import opened ClinicDb

  /** `MedicalRecordDTO`, without the weight. */
  datatype RecordDto = RecordDto(
    id: Option<int>,
    patientId: int,
    patientName: Option<string>,
    doctorId: Option<int>,
    doctorName: Option<string>,
    primaryProtocolId: Option<int>,
    protocolName: Option<string>,
    clinical: Clinical,
    createdAt: Option<DateTime>,
    updatedAt: Option<DateTime>)

  /** `mapToDTO`: the patient's name, and the doctor's and protocol's ids
      and names, which are null when the record has no doctor or no
      protocol. */
  function ToDto(users: Table<UserRow>, protocols: Table<ProtocolRow>, id: int, row: MedicalRecordRow): (d: RecordDto)
    requires RecordLinked(row, users, protocols)
    ensures d.id == Some(id) && d.patientId == row.patientId && d.clinical == row.clinical
    ensures d.patientName == users.rows[row.patientId].fullName
    ensures d.doctorId == row.doctorId
    ensures row.doctorId.None? ==> d.doctorName.None?
    ensures row.doctorId.Some? ==> d.doctorName == users.rows[row.doctorId.value].fullName
    ensures d.primaryProtocolId == row.protocolId
    ensures row.protocolId.None? ==> d.protocolName.None?
    ensures row.protocolId.Some? ==> d.protocolName == protocols.rows[row.protocolId.value].name
    ensures d.createdAt == Some(row.createdAt) && d.updatedAt == Some(row.updatedAt)
  {
    RecordDto(
      Some(id), row.patientId, users.rows[row.patientId].fullName,
      row.doctorId, if row.doctorId.Some? then users.rows[row.doctorId.value].fullName else None,
      row.protocolId, if row.protocolId.Some? then protocols.rows[row.protocolId.value].name else None,
      row.clinical, Some(row.createdAt), Some(row.updatedAt))
  }

  /** The DTOs of the records at `keys`, in that order. */
  function DtosOf(records: Table<MedicalRecordRow>, users: Table<UserRow>, protocols: Table<ProtocolRow>,
                  keys: seq<int>): (r: seq<RecordDto>)
    requires RecordsLinked(records, users, protocols)
    requires forall i :: 0 <= i < |keys| ==> keys[i] in records.rows
    ensures |r| == |keys|
    ensures forall i :: 0 <= i < |keys| ==> r[i] == ToDto(users, protocols, keys[i], records.rows[keys[i]])
    ensures forall i :: 0 <= i < |keys| ==> r[i].id == Some(keys[i]) && r[i].clinical == records.rows[keys[i]].clinical
  {
    if keys == [] then []
    else [ToDto(users, protocols, keys[0], records.rows[keys[0]])] + DtosOf(records, users, protocols, keys[1..])
  }

  /** The lookups of `createMedicalRecord`, in order: the patient, the
      doctor and the protocol when their ids are given; then the database
      refuses a null visit date. */
  function CreateError(users: Table<UserRow>, protocols: Table<ProtocolRow>, dto: RecordDto): (e: Option<Exception>)
    ensures dto.patientId !in users.rows ==> e == Some(ResourceNotFoundException)
    ensures e.None? <==>
      && dto.patientId in users.rows
      && (dto.doctorId.Some? ==> dto.doctorId.value in users.rows)
      && (dto.primaryProtocolId.Some? ==> dto.primaryProtocolId.value in protocols.rows)
      && dto.clinical.visitDate.Some?
    ensures e.Some? && e.value != ResourceNotFoundException ==> (
      && e.value == DataIntegrityViolationException
      && dto.patientId in users.rows
      && (dto.doctorId.Some? ==> dto.doctorId.value in users.rows)
      && (dto.primaryProtocolId.Some? ==> dto.primaryProtocolId.value in protocols.rows))
  {
    if dto.patientId !in users.rows then Some(ResourceNotFoundException)
    else if dto.doctorId.Some? && dto.doctorId.value !in users.rows then Some(ResourceNotFoundException)
    else if dto.primaryProtocolId.Some? && dto.primaryProtocolId.value !in protocols.rows then Some(ResourceNotFoundException)
    else if dto.clinical.visitDate.None? then Some(DataIntegrityViolationException)
    else None
  }

  /** The record the builder makes: every clinical field is the DTO's,
      nulls included. */
  function NewRecord(dto: RecordDto, now: DateTime): MedicalRecordRow {
    MedicalRecordRow(dto.patientId, dto.doctorId, dto.primaryProtocolId, dto.clinical, now, now)
  }

  /** What creation returns is what it was given: the patient, the doctor,
      the protocol and every clinical field of the DTO. */
  lemma CreatedReadsBack(users: Table<UserRow>, protocols: Table<ProtocolRow>, dto: RecordDto, id: int, now: DateTime)
    requires CreateError(users, protocols, dto).None?
    ensures RecordLinked(NewRecord(dto, now), users, protocols)
    ensures var d := ToDto(users, protocols, id, NewRecord(dto, now));
      && d.patientId == dto.patientId && d.doctorId == dto.doctorId
      && d.primaryProtocolId == dto.primaryProtocolId && d.clinical == dto.clinical
      && d.createdAt == Some(now) && d.updatedAt == Some(now)
  {
  }

  /** `createMedicalRecord`, with `now` for the auditing time. */
  method CreateMedicalRecord(db: Database, dto: RecordDto, now: DateTime) returns (r: Result<RecordDto>)
    requires db.records.Issued() && RecordsLinked(db.records, db.users, db.protocols)
    modifies db`records
    ensures db.records.Issued() && RecordsLinked(db.records, db.users, db.protocols)
    ensures r.Err? <==> CreateError(db.users, db.protocols, dto).Some?
    ensures r.Err? ==> r.error == CreateError(db.users, db.protocols, dto).value && db.records == old(db.records)
    ensures r.Ok? ==> (
      && db.records == old(db.records).Insert(NewRecord(dto, now))
      && r.value == ToDto(db.users, db.protocols, old(db.records.next), NewRecord(dto, now)))
  {
    var e := CreateError(db.users, db.protocols, dto);
    if e.Some? {
      return Err(e.value);
    }
    var id := db.records.next;
    db.records := db.records.Insert(NewRecord(dto, now));
    r := Ok(ToDto(db.users, db.protocols, id, NewRecord(dto, now)));
  }

  /** `updateMedicalRecord` looks the doctor up only when the DTO names one
      that is not already the record's. */
  predicate ReplacesDoctor(row: MedicalRecordRow, dto: RecordDto) {
    dto.doctorId.Some? && row.doctorId != dto.doctorId
  }

  predicate ReplacesProtocol(row: MedicalRecordRow, dto: RecordDto) {
    dto.primaryProtocolId.Some? && row.protocolId != dto.primaryProtocolId
  }

  /** The checks of `updateMedicalRecord`, in order. */
  function UpdateError(records: Table<MedicalRecordRow>, users: Table<UserRow>, protocols: Table<ProtocolRow>,
                       id: int, dto: RecordDto): (e: Option<Exception>)
    ensures id !in records.rows ==> e == Some(ResourceNotFoundException)
    ensures e.None? <==>
      && id in records.rows
      && (ReplacesDoctor(records.rows[id], dto) ==> dto.doctorId.value in users.rows)
      && (ReplacesProtocol(records.rows[id], dto) ==> dto.primaryProtocolId.value in protocols.rows)
      && dto.clinical.visitDate.Some?
    ensures e.Some? ==> e.value == ResourceNotFoundException || e.value == DataIntegrityViolationException
  {
    if id !in records.rows then Some(ResourceNotFoundException)
    else
      var row := records.rows[id];
      if ReplacesDoctor(row, dto) && dto.doctorId.value !in users.rows then Some(ResourceNotFoundException)
      else if ReplacesProtocol(row, dto) && dto.primaryProtocolId.value !in protocols.rows then Some(ResourceNotFoundException)
      else if dto.clinical.visitDate.None? then Some(DataIntegrityViolationException)
      else None
  }

  /** The record after `updateMedicalRecord`: a null doctor or protocol id
      keeps the current one, and every clinical field is overwritten. */
  function Updated(row: MedicalRecordRow, dto: RecordDto, now: DateTime): MedicalRecordRow {
    row.(doctorId := if dto.doctorId.Some? then dto.doctorId else row.doctorId,
         protocolId := if dto.primaryProtocolId.Some? then dto.primaryProtocolId else row.protocolId,
         clinical := dto.clinical,
         updatedAt := now)
  }

  /** The update writes the DTO's clinical fields, nulls included, keeps
      the patient and the creation time, and keeps the record's links. */
  lemma UpdatedRecord(records: Table<MedicalRecordRow>, users: Table<UserRow>, protocols: Table<ProtocolRow>,
                      id: int, dto: RecordDto, now: DateTime)
    requires RecordsLinked(records, users, protocols)
    requires UpdateError(records, users, protocols, id, dto).None?
    ensures var row := Updated(records.rows[id], dto, now);
      && RecordLinked(row, users, protocols)
      && row.clinical == dto.clinical
      && row.patientId == records.rows[id].patientId && row.createdAt == records.rows[id].createdAt
      && (dto.doctorId.None? ==> row.doctorId == records.rows[id].doctorId)
      && (dto.doctorId.Some? ==> row.doctorId == dto.doctorId)
      && (dto.primaryProtocolId.None? ==> row.protocolId == records.rows[id].protocolId)
      && (dto.primaryProtocolId.Some? ==> row.protocolId == dto.primaryProtocolId)
  {
  }

  /** When the DTO names no doctor, or the record's own doctor, the users
      table is not consulted for the doctor: the outcome does not depend on
      it. */
  lemma SameDoctorNoLookup(records: Table<MedicalRecordRow>, users: Table<UserRow>, users': Table<UserRow>,
                           protocols: Table<ProtocolRow>, id: int, dto: RecordDto)
    requires id in records.rows && !ReplacesDoctor(records.rows[id], dto)
    ensures UpdateError(records, users, protocols, id, dto) == UpdateError(records, users', protocols, id, dto)
  {
  }

  /** Updating twice with the same DTO is updating once. */
  lemma UpdateIdempotent(row: MedicalRecordRow, dto: RecordDto, t1: DateTime, t2: DateTime)
    ensures Updated(Updated(row, dto, t1), dto, t2) == Updated(row, dto, t2)
  {
  }

  /** `updateMedicalRecord`, with `now` for the auditing time. */
  method UpdateMedicalRecord(db: Database, id: int, dto: RecordDto, now: DateTime) returns (r: Result<RecordDto>)
    requires db.records.Issued() && RecordsLinked(db.records, db.users, db.protocols)
    modifies db`records
    ensures db.records.Issued() && RecordsLinked(db.records, db.users, db.protocols)
    ensures r.Err? <==> old(UpdateError(db.records, db.users, db.protocols, id, dto)).Some?
    ensures r.Err? ==> (
      && r.error == old(UpdateError(db.records, db.users, db.protocols, id, dto)).value
      && db.records == old(db.records))
    ensures r.Ok? ==> (
      && id in old(db.records.rows)
      && db.records == old(db.records).Put(id, Updated(old(db.records.rows[id]), dto, now))
      && r.value == ToDto(db.users, db.protocols, id, db.records.rows[id]))
  {
    var e := UpdateError(db.records, db.users, db.protocols, id, dto);
    if e.Some? {
      return Err(e.value);
    }
    UpdatedRecord(db.records, db.users, db.protocols, id, dto, now);
    var row := Updated(db.records.rows[id], dto, now);
    db.records := db.records.Put(id, row);
    r := Ok(ToDto(db.users, db.protocols, id, row));
  }

  /** `getMedicalRecordById`. */
  function GetMedicalRecordById(records: Table<MedicalRecordRow>, users: Table<UserRow>, protocols: Table<ProtocolRow>,
                                id: int): (r: Result<RecordDto>)
    requires RecordsLinked(records, users, protocols)
    ensures r.Err? <==> id !in records.rows
    ensures r.Err? ==> r.error == ResourceNotFoundException
    ensures r.Ok? ==> r.value.id == Some(id) && r.value == ToDto(users, protocols, id, records.rows[id])
  {
    if id !in records.rows then Err(ResourceNotFoundException)
    else Ok(ToDto(users, protocols, id, records.rows[id]))
  }

  /** `updateMedicalRecordStatus`, with `now` for the auditing time. */
  method UpdateMedicalRecordStatus(db: Database, id: int, status: Option<string>, now: DateTime)
    returns (r: Result<RecordDto>)
    requires db.records.Issued() && RecordsLinked(db.records, db.users, db.protocols)
    modifies db`records
    ensures db.records.Issued() && RecordsLinked(db.records, db.users, db.protocols)
    ensures r.Err? <==> id !in old(db.records.rows)
    ensures r.Err? ==> r.error == ResourceNotFoundException && db.records == old(db.records)
    ensures r.Ok? ==> (
      && id in old(db.records.rows)
      && db.records == old(db.records).Put(id, StatusSet(old(db.records.rows[id]), status, now))
      && r.value == ToDto(db.users, db.protocols, id, db.records.rows[id]))
  {
    if id !in db.records.rows {
      return Err(ResourceNotFoundException);
    }
    var row := StatusSet(db.records.rows[id], status, now);
    db.records := db.records.Put(id, row);
    r := Ok(ToDto(db.users, db.protocols, id, row));
  }

  /** The record after its status is set: only the status and the update
      time change. */
  function StatusSet(row: MedicalRecordRow, status: Option<string>, now: DateTime): (r: MedicalRecordRow)
    ensures r.clinical.recordStatus == status
    ensures r.clinical == row.clinical.(recordStatus := status)
    ensures r == row.(clinical := r.clinical, updatedAt := now)
  {
    row.(clinical := row.clinical.(recordStatus := status), updatedAt := now)
  }

  /** `countByRecordStatus`: `record_status = :status`, which a null
      status matches nowhere. */
  function StatusIs(status: Option<string>): MedicalRecordRow -> bool {
    (row: MedicalRecordRow) => status.Some? && row.clinical.recordStatus == status
  }

  function CountMedicalRecordsByStatus(records: Table<MedicalRecordRow>, status: Option<string>): (n: nat)
    requires records.Issued()
    ensures status.None? ==> n == 0
    ensures n == |records.Where(StatusIs(status))|
  {
    records.Count(StatusIs(status))
  }

  /** Setting a record's status moves it from its old status's count to
      the new one's; a third status's count is unchanged. */
  lemma StatusCountsAfterSet(records: Table<MedicalRecordRow>, id: int, status: string, other: string, now: DateTime)
    requires records.Issued() && id in records.rows
    requires records.rows[id].clinical.recordStatus != Some(status)
    requires other != status && records.rows[id].clinical.recordStatus != Some(other)
    ensures var after := records.Put(id, StatusSet(records.rows[id], Some(status), now));
      && CountMedicalRecordsByStatus(after, Some(status)) == CountMedicalRecordsByStatus(records, Some(status)) + 1
      && CountMedicalRecordsByStatus(after, Some(other)) == CountMedicalRecordsByStatus(records, Some(other))
  {
    var row := StatusSet(records.rows[id], Some(status), now);
    records.CountAfterPut(StatusIs(Some(status)), id, row);
    records.CountAfterPut(StatusIs(Some(other)), id, row);
  }

  /** The order of `Sort.by("visitDate").descending()`: `x` sorts no later
      than `y`. A null date sorts last. */
  predicate NotOlder(x: Option<Date>, y: Option<Date>) {
    y.None? || (x.Some? && !Before(x.value, y.value))
  }

  lemma NotOlderTotal(x: Option<Date>, y: Option<Date>)
    ensures NotOlder(x, y) || NotOlder(y, x)
  {
    if x.Some? && y.Some? {
      BeforeTotal(x.value, y.value);
    }
  }

  lemma NotOlderTransitive(x: Option<Date>, y: Option<Date>, z: Option<Date>)
    requires NotOlder(x, y) && NotOlder(y, z)
    ensures NotOlder(x, z)
  {
    if z.Some? {
      BeforeTotal(x.value, y.value);
      if Before(y.value, x.value) && Before(x.value, z.value) {
        BeforeTransitive(y.value, x.value, z.value);
      }
    }
  }

  predicate AllStored(rows: map<int, MedicalRecordRow>, ks: seq<int>) {
    forall i :: 0 <= i < |ks| ==> ks[i] in rows
  }

  /** The keys are in descending visit-date order. */
  predicate NewestFirst(rows: map<int, MedicalRecordRow>, ks: seq<int>)
    requires AllStored(rows, ks)
  {
    forall i, j :: 0 <= i < j < |ks| ==> NotOlder(rows[ks[i]].clinical.visitDate, rows[ks[j]].clinical.visitDate)
  }

  /** `k` placed after every key whose visit is not older. */
  function InsertByVisit(rows: map<int, MedicalRecordRow>, ks: seq<int>, k: int): (r: seq<int>)
    requires AllStored(rows, ks) && k in rows
    ensures multiset(r) == multiset(ks) + multiset{k}
    ensures forall x :: x in r <==> x in ks || x == k
    ensures AllStored(rows, r)
  {
    if ks == [] then [k]
    else if NotOlder(rows[ks[0]].clinical.visitDate, rows[k].clinical.visitDate) then
      assert ks == [ks[0]] + ks[1..];
      [ks[0]] + InsertByVisit(rows, ks[1..], k)
    else
      [k] + ks
  }

  lemma {:induction false} InsertKeepsNewestFirst(rows: map<int, MedicalRecordRow>, ks: seq<int>, k: int)
    requires AllStored(rows, ks) && k in rows && NewestFirst(rows, ks)
    ensures NewestFirst(rows, InsertByVisit(rows, ks, k))
  {
    if ks == [] {
    } else if NotOlder(rows[ks[0]].clinical.visitDate, rows[k].clinical.visitDate) {
      var rest := InsertByVisit(rows, ks[1..], k);
      InsertKeepsNewestFirst(rows, ks[1..], k);
      assert ks == [ks[0]] + ks[1..];
      forall j | 0 <= j < |rest|
        ensures NotOlder(rows[ks[0]].clinical.visitDate, rows[rest[j]].clinical.visitDate)
      {
        assert rest[j] in rest;
        if rest[j] != k {
          var i :| 0 <= i < |ks[1..]| && ks[1..][i] == rest[j];
          assert ks[i + 1] == rest[j];
        }
      }
    } else {
      var x := rows[k].clinical.visitDate;
      NotOlderTotal(rows[ks[0]].clinical.visitDate, x);
      forall j | 0 <= j < |ks| ensures NotOlder(x, rows[ks[j]].clinical.visitDate) {
        if j > 0 {
          NotOlderTransitive(x, rows[ks[0]].clinical.visitDate, rows[ks[j]].clinical.visitDate);
        }
      }
      var r := [k] + ks;
      assert forall i, j :: 0 < i < j < |r| ==> r[i] == ks[i - 1] && r[j] == ks[j - 1];
    }
  }

  /** The keys sorted newest visit first; keys of equal visits keep their
      order. */
  function ByVisitDesc(rows: map<int, MedicalRecordRow>, ks: seq<int>): (r: seq<int>)
    requires AllStored(rows, ks)
    ensures multiset(r) == multiset(ks)
    ensures forall x :: x in r <==> x in ks
    ensures AllStored(rows, r)
  {
    if ks == [] then []
    else
      assert ks == ks[..|ks| - 1] + [ks[|ks| - 1]];
      InsertByVisit(rows, ByVisitDesc(rows, ks[..|ks| - 1]), ks[|ks| - 1])
  }

  lemma {:induction false} ByVisitDescSorted(rows: map<int, MedicalRecordRow>, ks: seq<int>)
    requires AllStored(rows, ks)
    ensures NewestFirst(rows, ByVisitDesc(rows, ks))
  {
    if ks != [] {
      ByVisitDescSorted(rows, ks[..|ks| - 1]);
      InsertKeepsNewestFirst(rows, ByVisitDesc(rows, ks[..|ks| - 1]), ks[|ks| - 1]);
    }
  }

  /** The records `p` selects, newest visit first. */
  function SortedMatches(records: Table<MedicalRecordRow>, p: MedicalRecordRow -> bool): (r: seq<int>)
    requires records.Issued()
    ensures AllStored(records.rows, r) && NewestFirst(records.rows, r)
    ensures forall k :: k in r <==> k in records.rows && p(records.rows[k])
    ensures |r| == records.Count(p)
  {
    var all := records.Where(p);
    ByVisitDescSorted(records.rows, all);
    var sorted := ByVisitDesc(records.rows, all);
    assert |sorted| == |all| by {
      assert |multiset(sorted)| == |multiset(all)|;
    }
    assert forall k :: k in sorted <==> k in multiset(all);
    sorted
  }

  /** The keys of one page of the records `p` selects. */
  function PageKeys(records: Table<MedicalRecordRow>, p: MedicalRecordRow -> bool, page: int, size: int)
    : (r: Result<seq<int>>)
    requires records.Issued()
    ensures r.Err? <==> page < 0 || size < 1
    ensures r.Err? ==> r.error == IllegalArgumentException
    ensures r.Ok? ==> AllStored(records.rows, r.value) && |r.value| <= size
  {
    var sorted := SortedMatches(records, p);
    var keys :- PageOf(sorted, page, size);
    assert forall i :: 0 <= i < |keys| ==> keys[i] in sorted;
    Ok(keys)
  }

  /** Any run of keys taken from a newest-first list is newest-first. */
  lemma SliceNewestFirst(rows: map<int, MedicalRecordRow>, xs: seq<int>, ys: seq<int>, off: int)
    requires AllStored(rows, xs) && NewestFirst(rows, xs) && 0 <= off <= |xs| && ys <= xs[off..]
    ensures AllStored(rows, ys) && NewestFirst(rows, ys)
  {
    assert forall i :: 0 <= i < |ys| ==> ys[i] == xs[off + i];
  }

  /** A page of a newest-first list is newest-first. */
  lemma PageNewestFirst(rows: map<int, MedicalRecordRow>, xs: seq<int>, page: int, size: int)
    requires AllStored(rows, xs) && NewestFirst(rows, xs) && page >= 0 && size >= 1
    ensures AllStored(rows, PageOf(xs, page, size).value) && NewestFirst(rows, PageOf(xs, page, size).value)
  {
    var off := page * size;
    if off <= |xs| {
      SliceNewestFirst(rows, xs, PageOf(xs, page, size).value, off);
    }
  }

  /** The first page of a list that fits on it is the whole list. */
  lemma FirstPageWhole(xs: seq<int>, size: int)
    requires 1 <= size && |xs| <= size
    ensures PageOf(xs, 0, size) == Ok(xs)
  {
    assert 0 * size == 0;
    assert xs[0..] == xs;
  }

  /** A page holds only records that `p` selects, newest visit first; when
      one page holds them all, it holds every one. */
  lemma PageKeysContents(records: Table<MedicalRecordRow>, p: MedicalRecordRow -> bool, page: int, size: int)
    requires records.Issued() && page >= 0 && size >= 1
    ensures var keys := PageKeys(records, p, page, size).value;
      && (forall i :: 0 <= i < |keys| ==> keys[i] in records.rows && p(records.rows[keys[i]]))
      && NewestFirst(records.rows, keys)
      && (page == 0 && records.Count(p) <= size ==>
            |keys| == records.Count(p) && forall k :: k in records.rows && p(records.rows[k]) ==> k in keys)
  {
    var sorted := SortedMatches(records, p);
    assert PageKeys(records, p, page, size) == PageOf(sorted, page, size);
    var keys := PageOf(sorted, page, size).value;
    forall i | 0 <= i < |keys| ensures keys[i] in records.rows && p(records.rows[keys[i]]) {
      assert keys[i] in keys;
    }
    PageNewestFirst(records.rows, sorted, page, size);
    if page == 0 && records.Count(p) <= size {
      FirstPageWhole(sorted, size);
    }
  }

  /** The map `getMedicalRecordsByPatient` and `getMedicalRecordsByDoctor`
      answer with. */
  datatype RecordsPage = RecordsPage(records: seq<RecordDto>, currentPage: int, totalItems: nat, totalPages: nat)

  /** One page of the records `p` selects, with the totals. */
  function PageFor(records: Table<MedicalRecordRow>, users: Table<UserRow>, protocols: Table<ProtocolRow>,
                   p: MedicalRecordRow -> bool, page: int, size: int): (r: Result<RecordsPage>)
    requires records.Issued() && RecordsLinked(records, users, protocols)
    ensures r.Err? <==> page < 0 || size < 1
    ensures r.Err? ==> r.error == IllegalArgumentException
    ensures r.Ok? ==> (
      && r.value.currentPage == page
      && r.value.totalItems == records.Count(p)
      && r.value.totalPages == TotalPages(records.Count(p), size)
      && r.value.records == DtosOf(records, users, protocols, PageKeys(records, p, page, size).value))
  {
    var keys :- PageKeys(records, p, page, size);
    Ok(RecordsPage(DtosOf(records, users, protocols, keys), page, records.Count(p), TotalPages(records.Count(p), size)))
  }

  /** The DTOs of newest-first keys are newest-first, and each key has
      its DTO. */
  lemma DtosFollowKeys(records: Table<MedicalRecordRow>, users: Table<UserRow>, protocols: Table<ProtocolRow>,
                       keys: seq<int>)
    requires RecordsLinked(records, users, protocols) && AllStored(records.rows, keys)
    requires NewestFirst(records.rows, keys)
    ensures var ds := DtosOf(records, users, protocols, keys);
      && (forall i, j :: 0 <= i < j < |ds| ==> NotOlder(ds[i].clinical.visitDate, ds[j].clinical.visitDate))
      && forall k :: k in keys ==> exists i :: 0 <= i < |ds| && ds[i].id == Some(k)
  {
    var ds := DtosOf(records, users, protocols, keys);
    forall i, j | 0 <= i < j < |ds| ensures NotOlder(ds[i].clinical.visitDate, ds[j].clinical.visitDate) {
      assert ds[i].clinical == records.rows[keys[i]].clinical && ds[j].clinical == records.rows[keys[j]].clinical;
    }
    forall k | k in keys ensures exists i :: 0 <= i < |ds| && ds[i].id == Some(k) {
      var i :| 0 <= i < |keys| && keys[i] == k;
      assert ds[i].id == Some(k);
    }
  }

  /** What a page shows: records that `p` selects, newest visit first, at
      most `size` of them; one page that holds them all shows every one. */
  lemma PageContents(records: Table<MedicalRecordRow>, users: Table<UserRow>, protocols: Table<ProtocolRow>,
                     p: MedicalRecordRow -> bool, page: int, size: int)
    requires records.Issued() && RecordsLinked(records, users, protocols)
    requires page >= 0 && size >= 1
    ensures var ds := PageFor(records, users, protocols, p, page, size).value.records;
      && |ds| <= size
      && (forall i :: 0 <= i < |ds| ==> ds[i].id.Some? && ds[i].id.value in records.rows && p(records.rows[ds[i].id.value]))
      && (forall i, j :: 0 <= i < j < |ds| ==> NotOlder(ds[i].clinical.visitDate, ds[j].clinical.visitDate))
      && (page == 0 && records.Count(p) <= size ==>
            |ds| == records.Count(p)
            && forall k :: k in records.rows && p(records.rows[k]) ==> exists i :: 0 <= i < |ds| && ds[i].id == Some(k))
  {
    PageKeysContents(records, p, page, size);
    var keys := PageKeys(records, p, page, size).value;
    assert PageFor(records, users, protocols, p, page, size).value.records == DtosOf(records, users, protocols, keys);
    DtosFollowKeys(records, users, protocols, keys);
  }

  function OfPatient(patientId: int): MedicalRecordRow -> bool {
    (row: MedicalRecordRow) => row.patientId == patientId
  }

  function OfDoctor(doctorId: int): MedicalRecordRow -> bool {
    (row: MedicalRecordRow) => row.doctorId == Some(doctorId)
  }

  /** `getMedicalRecordsByPatient`: an unknown patient fails before the
      page request is checked. */
  function GetMedicalRecordsByPatient(records: Table<MedicalRecordRow>, users: Table<UserRow>, protocols: Table<ProtocolRow>,
                                      patientId: int, page: int, size: int): (r: Result<RecordsPage>)
    requires records.Issued() && RecordsLinked(records, users, protocols)
    ensures patientId !in users.rows ==> r == Err(ResourceNotFoundException)
    ensures patientId in users.rows ==> r == PageFor(records, users, protocols, OfPatient(patientId), page, size)
  {
    if patientId !in users.rows then Err(ResourceNotFoundException)
    else PageFor(records, users, protocols, OfPatient(patientId), page, size)
  }

  /** `getMedicalRecordsByDoctor`: the doctor is looked up among users. */
  function GetMedicalRecordsByDoctor(records: Table<MedicalRecordRow>, users: Table<UserRow>, protocols: Table<ProtocolRow>,
                                     doctorId: int, page: int, size: int): (r: Result<RecordsPage>)
    requires records.Issued() && RecordsLinked(records, users, protocols)
    ensures doctorId !in users.rows ==> r == Err(ResourceNotFoundException)
    ensures doctorId in users.rows ==> r == PageFor(records, users, protocols, OfDoctor(doctorId), page, size)
  {
    if doctorId !in users.rows then Err(ResourceNotFoundException)
    else PageFor(records, users, protocols, OfDoctor(doctorId), page, size)
  }

  /** The prescriptions of the record. */
  function PrescriptionsOf(prescriptions: Table<PrescriptionRow>, id: int): (ps: set<int>)
    ensures forall p :: p in ps <==> p in prescriptions.rows && prescriptions.rows[p].medicalRecordId == id
  {
    set p | p in prescriptions.rows && prescriptions.rows[p].medicalRecordId == id
  }

  /** The items of those prescriptions. */
  function ItemsOf(items: Table<ItemRow>, ps: set<int>): (its: set<int>)
    ensures forall i :: i in its <==> i in items.rows && items.rows[i].prescriptionId in ps
  {
    set i | i in items.rows && items.rows[i].prescriptionId in ps
  }

  function OfRecordRx(id: int): PrescriptionRow -> bool {
    (p: PrescriptionRow) => p.medicalRecordId == id
  }

  function InPrescriptions(ps: set<int>): ItemRow -> bool {
    (i: ItemRow) => i.prescriptionId in ps
  }

  function ForItems(its: set<int>): MedReminderRow -> bool {
    (m: MedReminderRow) => m.itemId in its
  }

  /** A reminder of the record, or of one of its prescriptions. */
  function Cascaded(id: int, ps: set<int>): ReminderRow -> bool {
    (r: ReminderRow) => r.medicalRecordId == Some(id) || (r.prescriptionId.Some? && r.prescriptionId.value in ps)
  }

  /** The checks of `deleteMedicalRecord`: the record exists, and no lab
      result association refers to it (that foreign key does not cascade). */
  function DeleteError(records: Table<MedicalRecordRow>, recordLabs: Table<RecordLabRow>, id: int): (e: Option<Exception>)
    ensures id !in records.rows ==> e == Some(ResourceNotFoundException)
    ensures e.None? <==> id in records.rows && forall l :: l in recordLabs.rows ==> recordLabs.rows[l].recordId != id
    ensures e.Some? && id in records.rows ==> e == Some(DataIntegrityViolationException)
  {
    if id !in records.rows then Some(ResourceNotFoundException)
    else if exists l :: l in recordLabs.rows && recordLabs.rows[l].recordId == id then Some(DataIntegrityViolationException)
    else None
  }

  /** The links that the cascade of a record's delete has to keep. */
  predicate CareLinked(records: Table<MedicalRecordRow>, prescriptions: Table<PrescriptionRow>, items: Table<ItemRow>,
                       medReminders: Table<MedReminderRow>, reminders: Table<ReminderRow>,
                       recordLabs: Table<RecordLabRow>, results: Table<LabResultRow>) {
    && RecordLabsLinked(recordLabs, records, results)
    && PrescriptionsLinked(prescriptions, records) && ItemsLinked(items, prescriptions)
    && MedRemindersLinked(medReminders, items)
    && RemindersLinked(reminders, records, prescriptions)
  }

  /** The cascade leaves no item without its prescription and no
      medication reminder without its item. */
  lemma CascadeKeepsItemLinks(prescriptions: Table<PrescriptionRow>, items: Table<ItemRow>,
                              medReminders: Table<MedReminderRow>, id: int)
    requires ItemsLinked(items, prescriptions) && MedRemindersLinked(medReminders, items)
    ensures var ps := PrescriptionsOf(prescriptions, id);
      && ItemsLinked(items.Delete(InPrescriptions(ps)), prescriptions.Delete(OfRecordRx(id)))
      && MedRemindersLinked(medReminders.Delete(ForItems(ItemsOf(items, ps))), items.Delete(InPrescriptions(ps)))
  {
  }

  /** Once no lab-result association names the record, the cascade leaves
      no row naming it or one of its prescriptions. */
  lemma CascadeKeepsRecordLinks(records: Table<MedicalRecordRow>, prescriptions: Table<PrescriptionRow>,
                                reminders: Table<ReminderRow>, recordLabs: Table<RecordLabRow>,
                                results: Table<LabResultRow>, id: int)
    requires PrescriptionsLinked(prescriptions, records) && RemindersLinked(reminders, records, prescriptions)
    requires RecordLabsLinked(recordLabs, records, results)
    requires forall l :: l in recordLabs.rows ==> recordLabs.rows[l].recordId != id
    ensures var ps := PrescriptionsOf(prescriptions, id);
      && PrescriptionsLinked(prescriptions.Delete(OfRecordRx(id)), records.DeleteKey(id))
      && RemindersLinked(reminders.Delete(Cascaded(id, ps)), records.DeleteKey(id), prescriptions.Delete(OfRecordRx(id)))
      && RecordLabsLinked(recordLabs, records.DeleteKey(id), results)
  {
  }

  lemma CascadeKeepsLinks(records: Table<MedicalRecordRow>, prescriptions: Table<PrescriptionRow>, items: Table<ItemRow>,
                          medReminders: Table<MedReminderRow>, reminders: Table<ReminderRow>,
                          recordLabs: Table<RecordLabRow>, results: Table<LabResultRow>, id: int)
    requires CareLinked(records, prescriptions, items, medReminders, reminders, recordLabs, results)
    requires DeleteError(records, recordLabs, id).None?
    ensures var ps := PrescriptionsOf(prescriptions, id);
      CareLinked(records.DeleteKey(id), prescriptions.Delete(OfRecordRx(id)), items.Delete(InPrescriptions(ps)),
                 medReminders.Delete(ForItems(ItemsOf(items, ps))), reminders.Delete(Cascaded(id, ps)), recordLabs, results)
  {
    CascadeKeepsItemLinks(prescriptions, items, medReminders, id);
    CascadeKeepsRecordLinks(records, prescriptions, reminders, recordLabs, results, id);
  }

  /** `deleteMedicalRecord`: the record and everything that cascades from
      it go, in one transaction. */
  method DeleteMedicalRecord(db: Database, id: int) returns (r: Result<()>)
    requires CareLinked(db.records, db.prescriptions, db.items, db.medReminders, db.reminders, db.recordLabs, db.labResults)
    modifies db`records, db`prescriptions, db`items, db`medReminders, db`reminders
    ensures CareLinked(db.records, db.prescriptions, db.items, db.medReminders, db.reminders, db.recordLabs, db.labResults)
    ensures r.Err? <==> old(DeleteError(db.records, db.recordLabs, id)).Some?
    ensures r.Err? ==> (
      && r.error == old(DeleteError(db.records, db.recordLabs, id)).value
      && db.records == old(db.records) && db.prescriptions == old(db.prescriptions) && db.items == old(db.items)
      && db.medReminders == old(db.medReminders) && db.reminders == old(db.reminders))
    ensures r.Ok? ==>
      var ps := PrescriptionsOf(old(db.prescriptions), id);
      var its := ItemsOf(old(db.items), ps);
      && db.records == old(db.records).DeleteKey(id)
      && db.prescriptions == old(db.prescriptions).Delete(OfRecordRx(id))
      && db.items == old(db.items).Delete(InPrescriptions(ps))
      && db.medReminders == old(db.medReminders).Delete(ForItems(its))
      && db.reminders == old(db.reminders).Delete(Cascaded(id, ps))
  {
    var e := DeleteError(db.records, db.recordLabs, id);
    if e.Some? {
      return Err(e.value);
    }
    var ps := PrescriptionsOf(db.prescriptions, id);
    var its := ItemsOf(db.items, ps);
    CascadeKeepsLinks(db.records, db.prescriptions, db.items, db.medReminders, db.reminders, db.recordLabs, db.labResults, id);
    db.medReminders := db.medReminders.Delete(ForItems(its));
    db.items := db.items.Delete(InPrescriptions(ps));
    db.reminders := db.reminders.Delete(Cascaded(id, ps));
    db.prescriptions := db.prescriptions.Delete(OfRecordRx(id));
    db.records := db.records.DeleteKey(id);
    r := Ok(());
  }
}
