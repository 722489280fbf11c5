/** The treatment protocol service: protocols, the medications a protocol
    prescribes (through the protocol-medication mapping table), and saving a
    protocol with its timestamps.

    A medication list is modelled as the list of the medications' ids; the
    medication rows themselves are read from the medication table. The map
    `getAllProtocolsWithMedications` returns is keyed by protocol id.
 */
module TreatmentProtocols {
  import opened Wrappers
  import opened Dates
  import opened Tables
  import opened ClinicDb

  /** A `findAll` query: every row, in key order. */
  function Everything<T>(): T -> bool {
    (_: T) => true
  }

  // ---- the medications of one protocol ----

  /** The mapping rows among `keys` that belong to protocol `p`, in order. */
  function OfProtocol(pms: map<int, ProtocolMedicationRow>, keys: seq<int>, p: int): (r: seq<int>)
    requires forall i :: 0 <= i < |keys| ==> keys[i] in pms
    ensures forall k :: k in r <==> k in keys && pms[k].protocolId == p
    ensures forall i :: 0 <= i < |r| ==> r[i] in pms
    decreases |keys|
  {
    if keys == [] then []
    else
      var front, k := keys[..|keys| - 1], keys[|keys| - 1];
      assert keys == front + [k];
      OfProtocol(pms, front, p) + (if pms[k].protocolId == p then [k] else [])
  }

  /** The medications named by the mapping rows `keys` that are stored
      (`meds`), in the order of the rows; a mapping to a missing medication
      contributes nothing. */
  function StoredMedications(pms: map<int, ProtocolMedicationRow>, meds: set<int>, keys: seq<int>): (r: seq<int>)
    requires forall i :: 0 <= i < |keys| ==> keys[i] in pms
    ensures forall m :: m in r ==> m in meds
    ensures forall m :: m in r <==> exists k :: k in keys && pms[k].medicationId == m && m in meds
    ensures (forall i :: 0 <= i < |keys| ==> pms[keys[i]].medicationId in meds) ==>
      |r| == |keys| && forall i :: 0 <= i < |keys| ==> r[i] == pms[keys[i]].medicationId
    decreases |keys|
  {
    if keys == [] then []
    else
      var front, k := keys[..|keys| - 1], keys[|keys| - 1];
      assert keys == front + [k];
      var m := pms[k].medicationId;
      var r' := StoredMedications(pms, meds, front);
      StoredMedicationsSnoc(pms, meds, front, k, r');
      r' + (if m in meds then [m] else [])
  }

  /** The step of `StoredMedications`: one more row adds its medication when
      it is stored. */
  lemma StoredMedicationsSnoc(pms: map<int, ProtocolMedicationRow>, meds: set<int>, front: seq<int>, k: int, r: seq<int>)
    requires k in pms && forall i :: 0 <= i < |front| ==> front[i] in pms
    requires forall m :: m in r <==> exists j :: j in front && pms[j].medicationId == m && m in meds
    requires (forall i :: 0 <= i < |front| ==> pms[front[i]].medicationId in meds) ==>
      |r| == |front| && forall i :: 0 <= i < |front| ==> r[i] == pms[front[i]].medicationId
    ensures var r' := r + (if pms[k].medicationId in meds then [pms[k].medicationId] else []);
      && (forall m :: m in r' <==> exists j :: j in front + [k] && pms[j].medicationId == m && m in meds)
      && ((forall i :: 0 <= i < |front + [k]| ==> pms[(front + [k])[i]].medicationId in meds) ==>
            |r'| == |front + [k]| && forall i :: 0 <= i < |front + [k]| ==> r'[i] == pms[(front + [k])[i]].medicationId)
  {
    var keys := front + [k];
    assert forall j :: j in keys <==> j in front || j == k;
    if forall i :: 0 <= i < |keys| ==> pms[keys[i]].medicationId in meds {
      assert forall i :: 0 <= i < |front| ==> keys[i] == front[i];
      assert pms[keys[|front|]].medicationId in meds;
    }
  }

  /** Two medication sets that agree on the medications the rows name give
      the same list. */
  lemma {:induction false} StoredMedicationsAgree(pms: map<int, ProtocolMedicationRow>, a: set<int>, b: set<int>, keys: seq<int>)
    requires forall i :: 0 <= i < |keys| ==> keys[i] in pms
    requires forall i :: 0 <= i < |keys| ==> (pms[keys[i]].medicationId in a <==> pms[keys[i]].medicationId in b)
    ensures StoredMedications(pms, a, keys) == StoredMedications(pms, b, keys)
    decreases |keys|
  {
    if keys != [] {
      StoredMedicationsAgree(pms, a, b, keys[..|keys| - 1]);
    }
  }

  /** `getMedicationsByProtocolId`: nothing for an unknown protocol;
      otherwise the medication of each of the protocol's mapping rows, in row
      order. The query joins the medication table, so a mapping to a missing
      medication is not returned. */
  function GetMedicationsByProtocolId(protocols: Table<ProtocolRow>, pms: Table<ProtocolMedicationRow>,
                                      medications: Table<MedicationRow>, protocolId: int): (r: seq<int>)
    requires pms.Issued()
    ensures protocolId !in protocols.rows ==> r == []
    ensures forall m :: m in r ==> m in medications.rows
    ensures protocolId in protocols.rows ==> forall m :: m in r <==>
      exists k :: k in pms.rows && pms.rows[k].protocolId == protocolId && pms.rows[k].medicationId == m && m in medications.rows
  {
    if protocolId !in protocols.rows then []
    else StoredMedications(pms.rows, medications.rows.Keys, OfProtocol(pms.rows, pms.Where(Everything()), protocolId))
  }

  /** When every mapping names a stored medication, the list has one entry
      per mapping row of the protocol, in row order. */
  lemma OneMedicationPerMapping(protocols: Table<ProtocolRow>, pms: Table<ProtocolMedicationRow>,
                                medications: Table<MedicationRow>, protocolId: int)
    requires pms.Issued() && protocolId in protocols.rows
    requires forall k :: k in pms.rows ==> pms.rows[k].medicationId in medications.rows
    ensures var rows := OfProtocol(pms.rows, pms.Where(Everything()), protocolId);
      var r := GetMedicationsByProtocolId(protocols, pms, medications, protocolId);
      |r| == |rows| && forall i :: 0 <= i < |rows| ==> r[i] == pms.rows[rows[i]].medicationId
  {
    var rows := OfProtocol(pms.rows, pms.Where(Everything()), protocolId);
    assert forall i :: 0 <= i < |rows| ==> rows[i] in pms.rows;
  }

  /** Without any mapping row, every protocol has no medication. */
  lemma NoMappingsNoMedications(protocols: Table<ProtocolRow>, pms: Table<ProtocolMedicationRow>,
                                medications: Table<MedicationRow>, protocolId: int)
    requires pms.Issued() && pms.rows == map[]
    ensures GetMedicationsByProtocolId(protocols, pms, medications, protocolId) == []
  {
  }

  // ---- all protocols with their medications ----

  /** A `getOrDefault(p, [])` lookup of the grouped rows. */
  function Group(byProtocol: map<int, seq<int>>, p: int): seq<int> {
    if p in byProtocol then byProtocol[p] else []
  }

  /** One more mapping row grouped under its protocol. */
  lemma GroupStep(pms: map<int, ProtocolMedicationRow>, keys: seq<int>, i: int,
                  byProtocol: map<int, seq<int>>, after: map<int, seq<int>>)
    requires 0 <= i < |keys| && forall j :: 0 <= j < |keys| ==> keys[j] in pms
    requires forall p :: OfProtocol(pms, keys[..i], p) == Group(byProtocol, p)
    requires var q := pms[keys[i]].protocolId; after == byProtocol[q := Group(byProtocol, q) + [keys[i]]]
    ensures forall p :: OfProtocol(pms, keys[..i + 1], p) == Group(after, p)
  {
    assert keys[..i + 1][..i] == keys[..i];
  }

  /** The `groupingBy` of the mapping rows by protocol id: each protocol's
      rows, in order. */
  method GroupByProtocol(pms: map<int, ProtocolMedicationRow>, all: seq<int>) returns (byProtocol: map<int, seq<int>>)
    requires forall j :: 0 <= j < |all| ==> all[j] in pms
    ensures forall p :: Group(byProtocol, p) == OfProtocol(pms, all, p)
  {
    byProtocol := map[];
    var i := 0;
    assert forall p :: OfProtocol(pms, all[..0], p) == [];
    while i < |all|
      invariant 0 <= i <= |all|
      invariant forall p :: OfProtocol(pms, all[..i], p) == Group(byProtocol, p)
    {
      var q := pms[all[i]].protocolId;
      var after := byProtocol[q := Group(byProtocol, q) + [all[i]]];
      GroupStep(pms, all, i, byProtocol, after);
      byProtocol := after;
      i := i + 1;
    }
    assert all[..i] == all;
  }

  /** The medication lists the protocol loop builds are those of
      `getMedicationsByProtocolId`. */
  predicate Listed(result: map<int, seq<int>>, protocols: Table<ProtocolRow>, pms: Table<ProtocolMedicationRow>,
                   medications: Table<MedicationRow>)
    requires pms.Issued()
  {
    forall p :: p in result ==> result[p] == GetMedicationsByProtocolId(protocols, pms, medications, p)
  }

  /** The medication map of `getAllProtocolsWithMedications` holds exactly
      the stored medications some mapping row names. */
  predicate FetchedFor(medicationMap: map<int, MedicationRow>, medications: Table<MedicationRow>,
                       pms: map<int, ProtocolMedicationRow>, keys: seq<int>)
    requires forall i :: 0 <= i < |keys| ==> keys[i] in pms
  {
    && (forall m :: m in medicationMap ==> m in medications.rows && medicationMap[m] == medications.rows[m])
    && (forall i :: 0 <= i < |keys| ==> (pms[keys[i]].medicationId in medicationMap <==> pms[keys[i]].medicationId in medications.rows))
  }

  /** A protocol's list built from the grouped rows and the fetched
      medications is its `getMedicationsByProtocolId` list. */
  lemma ListedStep(protocols: Table<ProtocolRow>, pms: Table<ProtocolMedicationRow>, medications: Table<MedicationRow>,
                   all: seq<int>, medicationMap: map<int, MedicationRow>, p: int)
    requires pms.Issued() && all == pms.Where(Everything()) && p in protocols.rows
    requires FetchedFor(medicationMap, medications, pms.rows, all)
    ensures StoredMedications(pms.rows, medicationMap.Keys, OfProtocol(pms.rows, all, p))
         == GetMedicationsByProtocolId(protocols, pms, medications, p)
  {
    var rows := OfProtocol(pms.rows, all, p);
    forall i | 0 <= i < |rows|
      ensures pms.rows[rows[i]].medicationId in medicationMap.Keys <==> pms.rows[rows[i]].medicationId in medications.rows.Keys
    {
      assert rows[i] in rows;
      var j :| 0 <= j < |all| && all[j] == rows[i];
    }
    StoredMedicationsAgree(pms.rows, medicationMap.Keys, medications.rows.Keys, rows);
  }

  /** The medication ids the rows name, fetched with `findAllById` into a
      map by id; ids nothing is stored under are not fetched. */
  method FetchMedications(db: Database, pms: map<int, ProtocolMedicationRow>, all: seq<int>)
    returns (medicationMap: map<int, MedicationRow>)
    requires db.medications.Issued() && forall j :: 0 <= j < |all| ==> all[j] in pms
    ensures FetchedFor(medicationMap, db.medications, pms, all)
  {
    var medicationIds := seq(|all|, j requires 0 <= j < |all| => pms[all[j]].medicationId);
    var found := db.medications.FindAll(medicationIds);
    medicationMap := map[];
    var j := 0;
    while j < |found|
      invariant 0 <= j <= |found|
      invariant forall m :: m in medicationMap <==> m in found[..j]
      invariant forall m :: m in medicationMap ==> m in db.medications.rows && medicationMap[m] == db.medications.rows[m]
    {
      assert found[..j + 1] == found[..j] + [found[j]];
      medicationMap := medicationMap[found[j] := db.medications.rows[found[j]]];
      j := j + 1;
    }
    assert found[..j] == found;
    forall n | 0 <= n < |all|
      ensures pms[all[n]].medicationId in medicationMap <==> pms[all[n]].medicationId in db.medications.rows
    {
      assert medicationIds[n] in medicationIds;
    }
  }

  /** A map holding a key for each of the listed protocol ids has the
      stored protocols as its keys. */
  lemma KeysOfProtocols(result: map<int, seq<int>>, protocols: seq<int>, t: Table<ProtocolRow>)
    requires t.Issued() && protocols == t.Where(Everything())
    requires forall p :: p in result <==> p in protocols
    ensures result.Keys == t.rows.Keys
  {
    forall k | k in t.rows
      ensures k in protocols
    {
      assert Everything<ProtocolRow>()(t.rows[k]);
    }
    assert forall k :: k in result.Keys <==> k in t.rows.Keys;
  }

  /** One more protocol listed. */
  lemma ListedAdd(result: map<int, seq<int>>, protocols: Table<ProtocolRow>, pms: Table<ProtocolMedicationRow>,
                  medications: Table<MedicationRow>, p: int, list: seq<int>)
    requires pms.Issued() && Listed(result, protocols, pms, medications)
    requires list == GetMedicationsByProtocolId(protocols, pms, medications, p)
    ensures Listed(result[p := list], protocols, pms, medications)
  {
  }

  /** The protocol loop when there is no mapping row: every protocol gets an
      empty list. */
  method EmptyLists(db: Database, protocols: seq<int>) returns (result: map<int, seq<int>>)
    requires db.protocols.Issued() && db.protocolMedications.Issued()
    requires protocols == db.protocols.Where(Everything()) && db.protocolMedications.Where(Everything()) == []
    ensures result.Keys == db.protocols.rows.Keys
    ensures Listed(result, db.protocols, db.protocolMedications, db.medications)
    ensures forall p :: p in result ==> result[p] == []
  {
    result := map[];
    var i := 0;
    while i < |protocols|
      invariant 0 <= i <= |protocols|
      invariant forall p :: p in result <==> p in protocols[..i]
      invariant forall p :: p in result ==> result[p] == []
      invariant Listed(result, db.protocols, db.protocolMedications, db.medications)
    {
      assert protocols[..i + 1] == protocols[..i] + [protocols[i]];
      NoMappingsEmptyList(db.protocols, db.protocolMedications, db.medications,
                          db.protocolMedications.Where(Everything()), protocols[i]);
      result := result[protocols[i] := []];
      i := i + 1;
    }
    assert protocols[..i] == protocols;
    KeysOfProtocols(result, protocols, db.protocols);
  }

  /** One more protocol key. */
  lemma KeysStep(result: map<int, seq<int>>, protocols: seq<int>, n: int, list: seq<int>, after: map<int, seq<int>>)
    requires 0 <= n < |protocols| && forall q :: q in result <==> q in protocols[..n]
    requires after == result[protocols[n] := list]
    ensures forall q :: q in after <==> q in protocols[..n + 1]
  {
    assert protocols[..n + 1] == protocols[..n] + [protocols[n]];
  }

  /** The protocol loop: each protocol's grouped rows, mapped to the fetched
      medications, with the missing ones filtered out. */
  method ListEach(protocolTable: Table<ProtocolRow>, pms: Table<ProtocolMedicationRow>, medicationTable: Table<MedicationRow>,
                  protocols: seq<int>, all: seq<int>, byProtocol: map<int, seq<int>>,
                  medicationMap: map<int, MedicationRow>) returns (result: map<int, seq<int>>)
    requires protocolTable.Issued() && pms.Issued()
    requires protocols == protocolTable.Where(Everything()) && all == pms.Where(Everything())
    requires forall p :: Group(byProtocol, p) == OfProtocol(pms.rows, all, p)
    requires FetchedFor(medicationMap, medicationTable, pms.rows, all)
    ensures result.Keys == protocolTable.rows.Keys
    ensures Listed(result, protocolTable, pms, medicationTable)
  {
    result := map[];
    var n := 0;
    while n < |protocols|
      invariant 0 <= n <= |protocols|
      invariant forall p :: p in result <==> p in protocols[..n]
      invariant Listed(result, protocolTable, pms, medicationTable)
    {
      var p := protocols[n];
      assert p in protocols;
      var protocolMeds := Group(byProtocol, p);
      ListedStep(protocolTable, pms, medicationTable, all, medicationMap, p);
      var medications := StoredMedications(pms.rows, medicationMap.Keys, protocolMeds);
      ListedAdd(result, protocolTable, pms, medicationTable, p, medications);
      KeysStep(result, protocols, n, medications, result[p := medications]);
      result := result[p := medications];
      n := n + 1;
    }
    assert protocols[..n] == protocols;
    KeysOfProtocols(result, protocols, protocolTable);
  }

  /** `getAllProtocolsWithMedications`: every protocol is a key, and its list
      is the one `getMedicationsByProtocolId` gives for it. No protocols give
      an empty map; no mappings give an empty list for every protocol. */
  method GetAllProtocolsWithMedications(db: Database) returns (result: map<int, seq<int>>)
    requires db.protocols.Issued() && db.protocolMedications.Issued() && db.medications.Issued()
    ensures result.Keys == db.protocols.rows.Keys
    ensures Listed(result, db.protocols, db.protocolMedications, db.medications)
  {
    var protocols := db.protocols.Where(Everything());
    if |protocols| == 0 {
      result := map[];
      KeysOfProtocols(result, protocols, db.protocols);
      return;
    }
    var all := db.protocolMedications.Where(Everything());
    if |all| == 0 {
      result := EmptyLists(db, protocols);
      return;
    }
    var byProtocol := GroupByProtocol(db.protocolMedications.rows, all);
    var medicationMap := FetchMedications(db, db.protocolMedications.rows, all);
    result := ListEach(db.protocols, db.protocolMedications, db.medications, protocols, all, byProtocol, medicationMap);
  }

  /** Without mapping rows the list of a stored protocol is empty. */
  lemma NoMappingsEmptyList(protocols: Table<ProtocolRow>, pms: Table<ProtocolMedicationRow>, medications: Table<MedicationRow>,
                            all: seq<int>, p: int)
    requires pms.Issued() && all == pms.Where(Everything()) && all == []
    ensures GetMedicationsByProtocolId(protocols, pms, medications, p) == []
  {
  }

  // ---- saving a protocol ----

  /** Another stored protocol already has the (unique) code. */
  predicate CodeTaken(protocols: Table<ProtocolRow>, code: Option<string>, except: Option<int>) {
    code.Some? && exists k :: k in protocols.rows && Some(k) != except && protocols.rows[k].code == code
  }

  /** The row `saveProtocol` stores: the update time is always now; a new
      protocol is created now, while an existing one keeps its creation time,
      since that column is not updatable. */
  function SavedProtocol(protocols: Table<ProtocolRow>, id: Option<int>, row: ProtocolRow, now: DateTime): (r: ProtocolRow)
    ensures r.updatedAt == Some(now)
    ensures id.Some? && id.value in protocols.rows ==> r.createdAt == protocols.rows[id.value].createdAt
    ensures !(id.Some? && id.value in protocols.rows) ==> r.createdAt == Some(now)
    ensures r.name == row.name && r.code == row.code && r.durationDays == row.durationDays
  {
    if id.Some? && id.value in protocols.rows then row.(createdAt := protocols.rows[id.value].createdAt, updatedAt := Some(now))
    else row.(createdAt := Some(now), updatedAt := Some(now))
  }

  /** `saveProtocol`: a protocol without an id, or with an id nothing is
      stored under, is inserted under the next identity; one with a stored id
      replaces that row. A missing name violates the NOT NULL column, and a
      code another protocol holds violates the unique constraint. */
  method SaveProtocol(db: Database, id: Option<int>, row: ProtocolRow, now: DateTime) returns (r: Result<int>)
    requires db.protocols.Issued()
    modifies db`protocols
    ensures db.protocols.Issued()
    ensures r.Err? <==> row.name.None? || old(CodeTaken(db.protocols, row.code, id))
    ensures r.Err? ==> r.error == DataIntegrityViolationException && db.protocols == old(db.protocols)
    ensures r.Ok? && id.Some? && id.value in old(db.protocols.rows) ==> (
      && r.value == id.value
      && db.protocols == old(db.protocols).Put(id.value, SavedProtocol(old(db.protocols), id, row, now)))
    ensures r.Ok? && !(id.Some? && id.value in old(db.protocols.rows)) ==> (
      && r.value == old(db.protocols.next)
      && db.protocols == old(db.protocols).Insert(SavedProtocol(old(db.protocols), id, row, now)))
  {
    if row.name.None? || CodeTaken(db.protocols, row.code, id) {
      return Err(DataIntegrityViolationException);
    }
    var saved := SavedProtocol(db.protocols, id, row, now);
    if id.Some? && id.value in db.protocols.rows {
      db.protocols := db.protocols.Put(id.value, saved);
      r := Ok(id.value);
    } else {
      r := Ok(db.protocols.next);
      db.protocols := db.protocols.Insert(saved);
    }
  }

  /** Saving twice at the same time with the returned id stores the same
      row: the second save keeps the first one's creation time. */
  lemma SaveAgainKeepsCreation(protocols: Table<ProtocolRow>, id: Option<int>, row: ProtocolRow, now: DateTime, later: DateTime)
    requires id.Some? && id.value in protocols.rows
    ensures var first := SavedProtocol(protocols, id, row, now);
      SavedProtocol(protocols.Put(id.value, first), id, row, later).createdAt == protocols.rows[id.value].createdAt
  {
  }
}
