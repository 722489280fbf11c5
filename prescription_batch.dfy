/** `PrescriptionController.createPrescriptionsBatch`: the examination form
    posts a list of JSON objects, one per medication. They are grouped by
    `medicalRecordId`; every group becomes one prescription whose header is
    read from the group's first object and whose items are read from all of
    them, and each group is saved with `createFullPrescription`. The
    controller has no transaction of its own: the groups saved before a
    failing one stay saved.

    A JSON object is a map from its keys to the `toString()` of each value,
    `None` standing for a JSON null. */
module PrescriptionBatch {
  import opened Wrappers
  import opened Text
  import opened Dates
  import opened Tables
  import opened ClinicDb
  import Items = PrescriptionItems
  import Rx = Prescriptions
  import Plans = MedicationReminders

  type Entry = map<string, Option<string>>

  const DEFAULT_FREQUENCY: string := "1 lần/ngày"
  const NOTES_PREFIX: string := "Tạo từ khám bệnh - "
  const NOTES_SUFFIX: string := " loại thuốc"
  const TREATMENT_DAYS: nat := 30

  // ---- reading one JSON object ----

  /** `entry.get(key)`: null for a missing key and for a null value. */
  function Get(e: Entry, key: string): (r: Option<string>)
    ensures r.Some? <==> key in e && e[key].Some?
    ensures r.Some? ==> r.value == e[key].value
  {
    if key in e then e[key] else None
  }

  /** `entry.get(key).toString()`: a NullPointerException when it is null. */
  function TextOf(e: Entry, key: string): (r: Result<string>)
    ensures r.Err? <==> Get(e, key).None?
    ensures r.Err? ==> r.error == NullPointerException
    ensures r.Ok? ==> r.value == Get(e, key).value
  {
    match Get(e, key)
    case Some(s) => Ok(s)
    case None => Err(NullPointerException)
  }

  /** `Long.valueOf(entry.get(key).toString())`. */
  function LongOf(e: Entry, key: string): (r: Result<int>)
    ensures r.Err? <==> Get(e, key).None? || ParseJavaLong(Get(e, key).value).None?
    ensures r.Err? ==> r.error == (if Get(e, key).None? then NullPointerException else NumberFormatException)
    ensures r.Ok? ==> Some(r.value) == ParseJavaLong(Get(e, key).value)
  {
    match Get(e, key)
    case None => Err(NullPointerException)
    case Some(s) => if ParseJavaLong(s).Some? then Ok(ParseJavaLong(s).value) else Err(NumberFormatException)
  }

  /** `Integer.valueOf(entry.get(key).toString())`. */
  function IntOf(e: Entry, key: string): (r: Result<int>)
    ensures r.Err? <==> Get(e, key).None? || ParseJavaInt(Get(e, key).value).None?
    ensures r.Err? ==> r.error == (if Get(e, key).None? then NullPointerException else NumberFormatException)
    ensures r.Ok? ==> Some(r.value) == ParseJavaInt(Get(e, key).value)
  {
    match Get(e, key)
    case None => Err(NullPointerException)
    case Some(s) => if ParseJavaInt(s).Some? then Ok(ParseJavaInt(s).value) else Err(NumberFormatException)
  }

  // ---- grouping by medical record ----

  /** The grouping key of one object. */
  function GroupKey(e: Entry): Result<int> {
    LongOf(e, "medicalRecordId")
  }

  /** `f` applied to every element in order, as a stream or a loop does it:
      the first element `f` fails on stops the run with its exception. */
  function MapAll<A, B>(f: A -> Result<B>, xs: seq<A>): (r: Result<seq<B>>)
    ensures r.Ok? ==> |r.value| == |xs|
    decreases |xs|
  {
    if xs == [] then Ok([])
    else
      match MapAll(f, xs[..|xs| - 1])
      case Err(x) => Err(x)
      case Ok(done) =>
        match f(xs[|xs| - 1])
        case Err(x) => Err(x)
        case Ok(y) => Ok(done + [y])
  }

  /** On success result `i` is `f` of element `i`; on failure the exception
      is that of the first element `f` fails on. */
  lemma {:induction false} MapAllMeaning<A, B>(f: A -> Result<B>, xs: seq<A>)
    ensures MapAll(f, xs).Ok? ==> forall i :: 0 <= i < |xs| ==> f(xs[i]) == Ok(MapAll(f, xs).value[i])
    ensures MapAll(f, xs).Err? ==> exists i :: 0 <= i < |xs| && f(xs[i]) == Err(MapAll(f, xs).error)
                                              && forall j :: 0 <= j < i ==> f(xs[j]).Ok?
    decreases |xs|
  {
    if xs != [] {
      var front := xs[..|xs| - 1];
      MapAllMeaning(f, front);
      assert forall i :: 0 <= i < |front| ==> front[i] == xs[i];
      if MapAll(f, front).Err? {
        var i :| 0 <= i < |front| && f(front[i]) == Err(MapAll(f, front).error)
                 && forall j :: 0 <= j < i ==> f(front[j]).Ok?;
        assert f(xs[i]) == Err(MapAll(f, xs).error);
      }
    }
  }

  /** When `f` succeeds on the first `i` elements and fails on element `i`,
      the whole run fails with that exception. */
  lemma {:induction false} MapAllFailure<A, B>(f: A -> Result<B>, xs: seq<A>, i: nat)
    requires i < |xs| && MapAll(f, xs[..i]).Ok? && f(xs[i]).Err?
    ensures MapAll(f, xs) == Err(f(xs[i]).error)
    decreases |xs|
  {
    if i + 1 < |xs| {
      var front := xs[..|xs| - 1];
      assert front[..i] == xs[..i] && front[i] == xs[i];
      MapAllFailure(f, front, i);
    } else {
      assert xs[..|xs| - 1] == xs[..i];
    }
  }

  /** The key of every object, in order. */
  function GroupKeys(batch: seq<Entry>): (r: Result<seq<int>>)
    ensures r.Ok? ==> |r.value| == |batch|
  {
    MapAll(GroupKey, batch)
  }

  predicate Ascending(xs: seq<int>) {
    forall i, j :: 0 <= i < j < |xs| ==> xs[i] < xs[j]
  }

  /** `k` put into its place in an ascending list, once. */
  function InsertSorted(xs: seq<int>, k: int): (r: seq<int>)
    requires Ascending(xs)
    ensures Ascending(r)
    ensures forall x :: x in r <==> x in xs || x == k
  {
    if xs == [] then [k]
    else if k < xs[0] then [k] + xs
    else if k == xs[0] then xs
    else
      assert Ascending(xs[1..]);
      var rest := InsertSorted(xs[1..], k);
      assert forall x :: x in xs <==> x == xs[0] || x in xs[1..];
      assert forall j :: 0 <= j < |rest| ==> xs[0] < rest[j] by {
        forall j | 0 <= j < |rest| ensures xs[0] < rest[j] {
          assert rest[j] in rest;
        }
      }
      [xs[0]] + rest
  }

  /** The distinct keys in ascending order: the order in which the
      `HashMap` of non-negative `Long` keys built by `groupingBy` hands out
      its entries while the keys are below its capacity. */
  function KeyOrder(keys: seq<int>): (r: seq<int>)
    ensures Ascending(r)
    ensures forall k :: k in r <==> k in keys
  {
    if keys == [] then []
    else
      var r := InsertSorted(KeyOrder(keys[..|keys| - 1]), keys[|keys| - 1]);
      assert forall k :: k in keys <==> k in keys[..|keys| - 1] || k == keys[|keys| - 1];
      r
  }

  /** The objects whose key is `k`, in the order they were posted. */
  function Members(batch: seq<Entry>, keys: seq<int>, k: int): (r: seq<Entry>)
    requires |keys| == |batch|
    ensures |r| <= |batch|
    ensures forall e :: e in r ==> e in batch
  {
    if batch == [] then []
    else (if keys[0] == k then [batch[0]] else []) + Members(batch[1..], keys[1..], k)
  }

  /** A key seen in the batch has at least one member, and an object is a
      member of the group of its own key. */
  lemma {:induction false} MembersOfKey(batch: seq<Entry>, keys: seq<int>, i: nat)
    requires |keys| == |batch| && i < |batch|
    ensures batch[i] in Members(batch, keys, keys[i])
    decreases i
  {
    if i > 0 {
      MembersOfKey(batch[1..], keys[1..], i - 1);
    }
  }

  datatype Group = Group(key: int, entries: seq<Entry>)

  /** One group per distinct key, in key order, each holding the objects of
      that key in posted order. */
  function GroupsOf(batch: seq<Entry>, keys: seq<int>): (r: seq<Group>)
    requires |keys| == |batch|
    ensures |r| == |KeyOrder(keys)|
    ensures forall i :: 0 <= i < |r| ==> r[i] == Group(KeyOrder(keys)[i], Members(batch, keys, KeyOrder(keys)[i]))
  {
    var order := KeyOrder(keys);
    seq(|order|, i requires 0 <= i < |order| => Group(order[i], Members(batch, keys, order[i])))
  }

  /** `groupingBy(medicalRecordId)`. */
  function Groups(batch: seq<Entry>): (r: Result<seq<Group>>)
    ensures r.Err? <==> GroupKeys(batch).Err?
    ensures r.Err? ==> r.error == GroupKeys(batch).error
    ensures r.Ok? ==> r.value == GroupsOf(batch, GroupKeys(batch).value)
  {
    match GroupKeys(batch)
    case Err(e) => Err(e)
    case Ok(keys) => Ok(GroupsOf(batch, keys))
  }

  /** The groups have distinct keys in ascending order, exactly the keys of
      the batch; no group is empty, and every object belongs to the group
      of its key. */
  lemma GroupsPartition(batch: seq<Entry>, keys: seq<int>)
    requires |keys| == |batch|
    ensures var gs := GroupsOf(batch, keys);
      Ascending(seq(|gs|, i requires 0 <= i < |gs| => gs[i].key))
    ensures forall g :: g in GroupsOf(batch, keys) ==> |g.entries| > 0
    ensures forall i :: 0 <= i < |batch| ==>
      exists g :: g in GroupsOf(batch, keys) && g.key == keys[i] && batch[i] in g.entries
    ensures forall k :: (exists g :: g in GroupsOf(batch, keys) && g.key == k) <==> k in keys
  {
    var gs := GroupsOf(batch, keys);
    assert seq(|gs|, i requires 0 <= i < |gs| => gs[i].key) == KeyOrder(keys);
    GroupsNonEmpty(batch, keys);
    GroupsCover(batch, keys);
    GroupKeysExact(batch, keys);
  }

  /** No group is empty. */
  lemma GroupsNonEmpty(batch: seq<Entry>, keys: seq<int>)
    requires |keys| == |batch|
    ensures forall g :: g in GroupsOf(batch, keys) ==> |g.entries| > 0
  {
    var gs := GroupsOf(batch, keys);
    var order := KeyOrder(keys);
    forall g | g in gs ensures |g.entries| > 0 {
      var i :| 0 <= i < |gs| && gs[i] == g;
      assert order[i] in order;
      var j :| 0 <= j < |keys| && keys[j] == order[i];
      MembersOfKey(batch, keys, j);
    }
  }

  /** Every object is in the group of its key. */
  lemma GroupsCover(batch: seq<Entry>, keys: seq<int>)
    requires |keys| == |batch|
    ensures forall i :: 0 <= i < |batch| ==>
      exists g :: g in GroupsOf(batch, keys) && g.key == keys[i] && batch[i] in g.entries
  {
    var gs := GroupsOf(batch, keys);
    var order := KeyOrder(keys);
    forall i | 0 <= i < |batch|
      ensures exists g :: g in gs && g.key == keys[i] && batch[i] in g.entries
    {
      assert keys[i] in keys;
      var n :| 0 <= n < |order| && order[n] == keys[i];
      MembersOfKey(batch, keys, i);
      assert gs[n].key == keys[i] && batch[i] in gs[n].entries;
    }
  }

  /** The group keys are exactly the keys of the batch. */
  lemma GroupKeysExact(batch: seq<Entry>, keys: seq<int>)
    requires |keys| == |batch|
    ensures forall k :: (exists g :: g in GroupsOf(batch, keys) && g.key == k) <==> k in keys
  {
    var gs := GroupsOf(batch, keys);
    var order := KeyOrder(keys);
    forall k ensures (exists g :: g in gs && g.key == k) <==> k in keys {
      if k in keys {
        var n :| 0 <= n < |order| && order[n] == k;
        assert gs[n] in gs;
      }
    }
  }

  /** There are as many groups as distinct keys. */
  lemma GroupCount(batch: seq<Entry>, keys: seq<int>)
    requires |keys| == |batch|
    ensures |GroupsOf(batch, keys)| == |set i | 0 <= i < |keys| :: keys[i]|
  {
    var order := KeyOrder(keys);
    AscendingCard(order);
    assert (set k | k in order) == (set i | 0 <= i < |keys| :: keys[i]) by {
      forall k | k in order ensures k in (set i | 0 <= i < |keys| :: keys[i]) {
        var i :| 0 <= i < |keys| && keys[i] == k;
      }
    }
  }

  // ---- the prescription header ----

  /** `protocolId`: left null when it is null or the text "null". */
  function ProtocolOf(e: Entry): (r: Result<Option<int>>)
    ensures (Get(e, "protocolId").None? || Get(e, "protocolId").value == "null") ==> r == Ok(None)
    ensures Get(e, "protocolId").Some? && Get(e, "protocolId").value != "null" ==>
      r == (match LongOf(e, "protocolId") case Ok(v) => Ok(Some(v)) case Err(x) => Err(x))
  {
    if Get(e, "protocolId").None? || Get(e, "protocolId").value == "null" then Ok(None)
    else
      match LongOf(e, "protocolId")
      case Ok(v) => Ok(Some(v))
      case Err(x) => Err(x)
  }

  /** `LocalDate.parse(entry.get(key).toString())`. */
  function DateOf(e: Entry, key: string): (r: Result<Date>)
    ensures r.Err? <==> Get(e, key).None? || ParseIsoDate(Get(e, key).value).None?
    ensures r.Err? ==> r.error == (if Get(e, key).None? then NullPointerException else DateTimeParseException)
    ensures r.Ok? ==> Some(r.value) == ParseIsoDate(Get(e, key).value)
  {
    match Get(e, key)
    case None => Err(NullPointerException)
    case Some(s) => if ParseIsoDate(s).Some? then Ok(ParseIsoDate(s).value) else Err(DateTimeParseException)
  }

  /** The generated `doctorNotes` for a group of `n` medications. */
  function DoctorNotes(n: nat): string {
    NOTES_PREFIX + IntToString(n) + NOTES_SUFFIX
  }

  /** A header holding everything `createFullPrescription` needs to build its row. */
  predicate Complete(p: Rx.PrescriptionInput) {
    p.medicalRecordId.Some? && p.patientId.Some? && p.doctorId.Some? && p.treatmentEndDate.Some?
  }

  /** The header of a group, read from its first object in the order the
      setters run: patient, doctor, protocol, date, status. */
  function Header(key: int, entries: seq<Entry>): (r: Result<Rx.PrescriptionInput>)
    requires |entries| > 0
    ensures r.Ok? ==> Complete(r.value)
  {
    var first := entries[0];
    match LongOf(first, "patientId")
    case Err(x) => Err(x)
    case Ok(patient) =>
      match LongOf(first, "doctorId")
      case Err(x) => Err(x)
      case Ok(doctor) =>
        match ProtocolOf(first)
        case Err(x) => Err(x)
        case Ok(protocol) =>
          match DateOf(first, "prescriptionDate")
          case Err(x) => Err(x)
          case Ok(start) =>
            match TextOf(first, "status")
            case Err(x) => Err(x)
            case Ok(status) =>
              Ok(Rx.Blank().(medicalRecordId := Some(key), patientId := Some(patient), doctorId := Some(doctor),
                             protocolId := protocol, treatmentStartDate := Some(start),
                             treatmentEndDate := Some(PlusDays(start, TREATMENT_DAYS)),
                             status := Some(status), doctorNotes := Some(DoctorNotes(|entries|))))
  }

  /** The header of a group: its record is the group's key; patient,
      doctor, protocol, start date and status come from the first object,
      the end date is 30 days after the start, and the notes count the
      group's objects. The first field that cannot be read decides the
      exception. */
  lemma HeaderFromFirstObject(key: int, entries: seq<Entry>)
    requires |entries| > 0
    ensures var r := Header(key, entries); r.Ok? <==>
      LongOf(entries[0], "patientId").Ok? && LongOf(entries[0], "doctorId").Ok? && ProtocolOf(entries[0]).Ok?
      && DateOf(entries[0], "prescriptionDate").Ok? && TextOf(entries[0], "status").Ok?
    ensures var r := Header(key, entries);
      r.Err? ==> (r.error ==
        if LongOf(entries[0], "patientId").Err? then LongOf(entries[0], "patientId").error
        else if LongOf(entries[0], "doctorId").Err? then LongOf(entries[0], "doctorId").error
        else if ProtocolOf(entries[0]).Err? then ProtocolOf(entries[0]).error
        else if DateOf(entries[0], "prescriptionDate").Err? then DateOf(entries[0], "prescriptionDate").error
        else TextOf(entries[0], "status").error)
    ensures var r := Header(key, entries); r.Ok? ==> (
      var first := entries[0];
      var start := DateOf(first, "prescriptionDate").value;
      && r.value.medicalRecordId == Some(key)
      && r.value.patientId == Some(LongOf(first, "patientId").value)
      && r.value.doctorId == Some(LongOf(first, "doctorId").value)
      && r.value.protocolId == ProtocolOf(first).value
      && r.value.treatmentStartDate == Some(start)
      && r.value.treatmentEndDate == Some(PlusDays(start, TREATMENT_DAYS))
      && r.value.status == Some(TextOf(first, "status").value)
      && r.value.doctorNotes == Some(DoctorNotes(|entries|))
      && r.value.protocolNotes.None?)
  {
  }

  // ---- the items ----

  /** `frequency`, with its default. */
  function Frequency(e: Entry): (r: string)
    ensures Get(e, "frequency").Some? ==> r == Get(e, "frequency").value
    ensures Get(e, "frequency").None? ==> r == DEFAULT_FREQUENCY
  {
    if Get(e, "frequency").Some? then Get(e, "frequency").value else DEFAULT_FREQUENCY
  }

  /** The doses a frequency text gives when the object has no `morningDose`:
      morning only, unless the text names two, three or four times a day,
      the first of those tests that matches deciding. */
  function FrequencyDoses(f: string): (d: Doses)
    ensures d.morning == Some(1)
    ensures d.evening == Some(if Contains(f, "2 lần") || Contains(f, "3 lần") || Contains(f, "4 lần") then 1 else 0)
    ensures d.noon == Some(if !Contains(f, "2 lần") && (Contains(f, "3 lần") || Contains(f, "4 lần")) then 1 else 0)
    ensures d.afternoon == Some(if !Contains(f, "2 lần") && !Contains(f, "3 lần") && Contains(f, "4 lần") then 1 else 0)
  {
    if Contains(f, "2 lần") then Doses(Some(1), Some(0), Some(0), Some(1))
    else if Contains(f, "3 lần") then Doses(Some(1), Some(1), Some(0), Some(1))
    else if Contains(f, "4 lần") then Doses(Some(1), Some(1), Some(1), Some(1))
    else Doses(Some(1), Some(0), Some(0), Some(0))
  }

  /** A text in which the first character of `sub` never occurs does not contain `sub`. */
  lemma LacksFirstChar(s: string, sub: string)
    requires |sub| > 0 && sub[0] !in s
    ensures !Contains(s, sub)
  {
    if Contains(s, sub) {
      var i := ContainsWitness(s, sub);
      assert false;
    }
  }

  /** A frequency without the digits 2, 3 and 4 gives one morning dose and nothing else. */
  lemma DigitlessFrequencyMorningOnly(f: string)
    requires '2' !in f && '3' !in f && '4' !in f
    ensures FrequencyDoses(f) == Doses(Some(1), Some(0), Some(0), Some(0))
  {
    LacksFirstChar(f, "2 lần");
    LacksFirstChar(f, "3 lần");
    LacksFirstChar(f, "4 lần");
  }

  /** The default frequency gives one morning dose and nothing else. */
  lemma DefaultFrequencyMorningOnly()
    ensures FrequencyDoses(DEFAULT_FREQUENCY) == Doses(Some(1), Some(0), Some(0), Some(0))
  {
    DigitlessFrequencyMorningOnly(DEFAULT_FREQUENCY);
  }

  /** The four explicit doses, each through `Integer.valueOf`, in setter order. */
  function ExplicitDoses(e: Entry): (r: Result<Doses>)
  {
    match IntOf(e, "morningDose")
    case Err(x) => Err(x)
    case Ok(m) =>
      match IntOf(e, "noonDose")
      case Err(x) => Err(x)
      case Ok(n) =>
        match IntOf(e, "afternoonDose")
        case Err(x) => Err(x)
        case Ok(a) =>
          match IntOf(e, "eveningDose")
          case Err(x) => Err(x)
          case Ok(v) => Ok(Doses(Some(m), Some(n), Some(a), Some(v)))
  }

  /** All four explicit doses must read as 32-bit integers; the first that
      does not decides the exception. */
  lemma ExplicitDosesRead(e: Entry)
    ensures var r := ExplicitDoses(e);
      r.Ok? <==> (IntOf(e, "morningDose").Ok? && IntOf(e, "noonDose").Ok?
                  && IntOf(e, "afternoonDose").Ok? && IntOf(e, "eveningDose").Ok?)
    ensures var r := ExplicitDoses(e);
      r.Ok? ==> (r.value == Doses(Some(IntOf(e, "morningDose").value), Some(IntOf(e, "noonDose").value),
                                  Some(IntOf(e, "afternoonDose").value), Some(IntOf(e, "eveningDose").value)))
    ensures var r := ExplicitDoses(e);
      r.Err? ==> (r.error ==
        if IntOf(e, "morningDose").Err? then IntOf(e, "morningDose").error
        else if IntOf(e, "noonDose").Err? then IntOf(e, "noonDose").error
        else if IntOf(e, "afternoonDose").Err? then IntOf(e, "afternoonDose").error
        else IntOf(e, "eveningDose").error)
  {
  }

  /** The doses of one object: explicit ones when it has the key
      `morningDose` (even with a null value), else from the frequency. */
  function DosesOf(e: Entry): (r: Result<Doses>)
    ensures "morningDose" in e ==> r == ExplicitDoses(e)
    ensures "morningDose" !in e ==> r == Ok(FrequencyDoses(Frequency(e)))
  {
    if "morningDose" in e then ExplicitDoses(e) else Ok(FrequencyDoses(Frequency(e)))
  }

  /** `usageInstructions`: dosage, frequency and timing joined by " - ",
      and the notes after one more " - " when there are any. */
  function Instructions(dosage: string, frequency: string, timing: string, notes: string): (r: string)
    ensures notes == [] ==> r == dosage + " - " + frequency + " - " + timing
    ensures notes != [] ==> r == dosage + " - " + frequency + " - " + timing + " - " + notes
  {
    dosage + " - " + frequency + " - " + timing + (if notes == [] then "" else " - " + notes)
  }

  /** One object as a prescription item, read in the order of the
      source: medication, frequency, doses, dosage, timing, notes. */
  function ItemOf(e: Entry): (r: Result<Items.ItemInput>)
  {
    match LongOf(e, "medicationId")
    case Err(x) => Err(x)
    case Ok(medication) =>
      var frequency := Frequency(e);
      match DosesOf(e)
      case Err(x) => Err(x)
      case Ok(doses) =>
        match TextOf(e, "dosage")
        case Err(x) => Err(x)
        case Ok(dosage) =>
          match TextOf(e, "timing")
          case Err(x) => Err(x)
          case Ok(timing) =>
            var notes := if Get(e, "notes").Some? then Get(e, "notes").value else "";
            Ok(Items.Blank(medication).(doses := doses, usageInstructions := Some(Instructions(dosage, frequency, timing, notes))))
  }

  /** An item names the object's medication, has its doses, the default
      unit and the joined instructions, and nothing else; the first field
      that cannot be read decides the exception. */
  lemma ItemFromObject(e: Entry)
    ensures var r := ItemOf(e);
      r.Ok? <==> (LongOf(e, "medicationId").Ok? && DosesOf(e).Ok? && TextOf(e, "dosage").Ok? && TextOf(e, "timing").Ok?)
    ensures var r := ItemOf(e);
      r.Err? ==> (r.error ==
        if LongOf(e, "medicationId").Err? then LongOf(e, "medicationId").error
        else if DosesOf(e).Err? then DosesOf(e).error
        else if TextOf(e, "dosage").Err? then TextOf(e, "dosage").error
        else TextOf(e, "timing").error)
    ensures var r := ItemOf(e); r.Ok? ==> (
      && r.value.prescriptionId.None?
      && r.value.medicationId == LongOf(e, "medicationId").value
      && r.value.doses == DosesOf(e).value
      && r.value.unit == Some(Items.DEFAULT_UNIT)
      && r.value.usageInstructions == Some(Instructions(TextOf(e, "dosage").value, Frequency(e), TextOf(e, "timing").value,
                                                        if Get(e, "notes").Some? then Get(e, "notes").value else ""))
      && r.value.specialNotes.None?)
  {
  }

  /** Every object of a group as an item, in order. */
  function ItemsOf(entries: seq<Entry>): (r: Result<seq<Items.ItemInput>>)
    ensures r.Ok? ==> |r.value| == |entries|
  {
    MapAll(ItemOf, entries)
  }

  /** The item loop of one group: each object is turned into an item and
      appended to `prescriptionItems`. */
  method BuildItems(entries: seq<Entry>) returns (r: Result<seq<Items.ItemInput>>)
    ensures r == ItemsOf(entries)
  {
    var built: seq<Items.ItemInput> := [];
    var i := 0;
    while i < |entries|
      invariant 0 <= i <= |entries|
      invariant MapAll(ItemOf, entries[..i]) == Ok(built)
    {
      assert entries[..i + 1][..i] == entries[..i];
      var item := ItemOf(entries[i]);
      if item.Err? {
        MapAllFailure(ItemOf, entries, i);
        return Err(item.error);
      }
      built := built + [item.value];
      i := i + 1;
    }
    assert entries[..i] == entries;
    r := Ok(built);
  }

  // ---- a whole group ----

  datatype Order = Order(header: Rx.PrescriptionInput, items: seq<Items.ItemInput>)

  /** A group as the header and items handed to `createFullPrescription`;
      the header is built before any item is read. */
  function OrderOf(g: Group): (r: Result<Order>)
    requires |g.entries| > 0
    ensures r.Ok? ==> Complete(r.value.header)
  {
    match Header(g.key, g.entries)
    case Err(x) => Err(x)
    case Ok(h) =>
      match ItemsOf(g.entries)
      case Err(x) => Err(x)
      case Ok(items) => Ok(Order(h, items))
  }

  /** A group that converts and that `createFullPrescription` saves. */
  predicate Accepted(g: Group, records: Table<MedicalRecordRow>, users: Table<UserRow>, protocols: Table<ProtocolRow>,
                     medications: Table<MedicationRow>) {
    && |g.entries| > 0 && OrderOf(g).Ok?
    && Rx.HeaderSaveable(records, users, protocols, OrderOf(g).value.header)
    && !Rx.UnknownMedication(medications, OrderOf(g).value.items)
  }

  /** As written, an object without `morningDose` gets the fallback
      morning dose, so `createFullPrescription` refuses an accepted group
      holding one with a NullPointerException: the batch as written stops at
      the first such group, which the model saves. */
  lemma FallbackDoseFailsAsWritten(g: Group, records: Table<MedicalRecordRow>, users: Table<UserRow>,
                                   protocols: Table<ProtocolRow>, medications: Table<MedicationRow>,
                                   items: Table<ItemRow>, id: int, now: DateTime, j: nat)
    requires Accepted(g, records, users, protocols, medications)
    requires j < |g.entries| && "morningDose" !in g.entries[j]
    ensures Rx.CreateFullErrorAsWritten(records, users, protocols, medications, items, OrderOf(g).value.header,
                                        OrderOf(g).value.items, id, now) == Some(NullPointerException)
  {
    var o := OrderOf(g).value;
    MapAllMeaning(ItemOf, g.entries);
    ItemFromObject(g.entries[j]);
    assert o.items[j].doses == FrequencyDoses(Frequency(g.entries[j]));
    assert Plans.Due(o.items[j].doses, MORNING);
    Rx.CreateFullFailsOnDueDose(records, users, protocols, medications, items, o.header, o.items, id, now, j);
  }

  /** How many groups are saved: those before the first that is not accepted. */
  function Committed(gs: seq<Group>, records: Table<MedicalRecordRow>, users: Table<UserRow>,
                     protocols: Table<ProtocolRow>, medications: Table<MedicationRow>): (k: nat)
    ensures k <= |gs|
    ensures forall i :: 0 <= i < k ==> Accepted(gs[i], records, users, protocols, medications)
    ensures k < |gs| ==> !Accepted(gs[k], records, users, protocols, medications)
  {
    if gs == [] || !Accepted(gs[0], records, users, protocols, medications) then 0
    else
      var k := Committed(gs[1..], records, users, protocols, medications);
      assert forall i :: 1 <= i < |gs| ==> gs[i] == gs[1..][i - 1];
      1 + k
  }

  /** The response body: the saved prescriptions' ids with `totalCount`
      and the message, or the exception that ends the batch with status 500. */
  datatype Response = Created(ids: seq<int>, totalCount: nat, message: string) | Failed(error: Exception)

  function SuccessMessage(n: nat): string {
    "Successfully created " + IntToString(n) + " prescriptions with automatic reminders"
  }

  /** The response for the groups `gs`, given the tables the saves check
      against and the key the first new prescription gets. */
  function GroupsOutcome(gs: seq<Group>, records: Table<MedicalRecordRow>, users: Table<UserRow>,
                         protocols: Table<ProtocolRow>, medications: Table<MedicationRow>, firstId: int): (r: Response)
    ensures r.Created? ==> (
      && r.ids == Plans.KeysFrom(firstId, |gs|) && r.totalCount == |r.ids|
      && r.message == SuccessMessage(|r.ids|))
  {
    var k := Committed(gs, records, users, protocols, medications);
    if k == |gs| then
      Created(Plans.KeysFrom(firstId, k), k, SuccessMessage(k))
    else
      var g := gs[k];
      if |g.entries| > 0 && OrderOf(g).Err? then Failed(OrderOf(g).error) else Failed(DataIntegrityViolationException)
  }

  /** The response of a batch: the grouping error, or that of its groups. */
  function Outcome(batch: seq<Entry>, records: Table<MedicalRecordRow>, users: Table<UserRow>,
                   protocols: Table<ProtocolRow>, medications: Table<MedicationRow>, firstId: int): (r: Response)
    ensures Groups(batch).Err? ==> r == Failed(Groups(batch).error)
    ensures r.Created? ==> (
      && Groups(batch).Ok?
      && r.ids == Plans.KeysFrom(firstId, |Groups(batch).value|) && r.totalCount == |r.ids|
      && r.message == SuccessMessage(|r.ids|))
  {
    match Groups(batch)
    case Err(x) => Failed(x)
    case Ok(gs) => GroupsOutcome(gs, records, users, protocols, medications, firstId)
  }

  /** An empty batch creates nothing and reports 0. */
  lemma EmptyBatch(records: Table<MedicalRecordRow>, users: Table<UserRow>, protocols: Table<ProtocolRow>,
                   medications: Table<MedicationRow>, firstId: int)
    ensures Outcome([], records, users, protocols, medications, firstId) == Created([], 0, SuccessMessage(0))
  {
  }

  /** A batch succeeds exactly when every group converts and is saved, and
      then it reports one prescription per distinct medical record. */
  lemma CreatedIff(batch: seq<Entry>, records: Table<MedicalRecordRow>, users: Table<UserRow>,
                   protocols: Table<ProtocolRow>, medications: Table<MedicationRow>, firstId: int)
    ensures Outcome(batch, records, users, protocols, medications, firstId).Created? <==>
      Groups(batch).Ok? && forall g :: g in Groups(batch).value ==> Accepted(g, records, users, protocols, medications)
    ensures Outcome(batch, records, users, protocols, medications, firstId).Created? ==>
      Outcome(batch, records, users, protocols, medications, firstId).totalCount
        == |set i | 0 <= i < |GroupKeys(batch).value| :: GroupKeys(batch).value[i]|
  {
    if Groups(batch).Ok? {
      var gs := Groups(batch).value;
      var k := Committed(gs, records, users, protocols, medications);
      GroupCount(batch, GroupKeys(batch).value);
    }
  }

  /** The header rows of the saved groups, in order. */
  function HeaderRows(orders: seq<Order>, today: Date, now: DateTime): (r: seq<PrescriptionRow>)
    requires forall o :: o in orders ==> Complete(o.header)
    ensures |r| == |orders|
    decreases |orders|
  {
    if orders == [] then []
    else
      var front, last := orders[..|orders| - 1], orders[|orders| - 1];
      assert last in orders && forall o :: o in front ==> o in orders;
      assert Complete(last.header);
      HeaderRows(front, today, now) + [Rx.NewPrescription(last.header, today, now)]
  }

  /** The item rows of the saved groups: those of group `i` stamped with
      key `firstId + i`, group after group. */
  function ItemRows(orders: seq<Order>, firstId: int, now: DateTime): (r: seq<ItemRow>)
    decreases |orders|
  {
    if orders == [] then []
    else
      var front := orders[..|orders| - 1];
      ItemRows(front, firstId, now) + Rx.StampedRows(orders[|orders| - 1].items, firstId + |front|, now)
  }

  /** Row `i` is the header of order `i` as `createFullPrescription` saves it. */
  lemma {:induction false} HeaderRowsMeaning(orders: seq<Order>, today: Date, now: DateTime)
    requires forall o :: o in orders ==> Complete(o.header)
    ensures forall i :: 0 <= i < |orders| ==>
      HeaderRows(orders, today, now)[i] == Rx.NewPrescription(orders[i].header, today, now)
    decreases |orders|
  {
    if orders != [] {
      var front := orders[..|orders| - 1];
      assert forall i :: 0 <= i < |front| ==> front[i] == orders[i];
      HeaderRowsMeaning(front, today, now);
    }
  }

  /** One more saved order extends both row lists by its rows. */
  lemma RowsSnoc(orders: seq<Order>, o: Order, firstId: int, today: Date, now: DateTime)
    requires forall o :: o in orders ==> Complete(o.header)
    requires Complete(o.header)
    ensures HeaderRows(orders + [o], today, now) == HeaderRows(orders, today, now) + [Rx.NewPrescription(o.header, today, now)]
    ensures ItemRows(orders + [o], firstId, now) == ItemRows(orders, firstId, now) + Rx.StampedRows(o.items, firstId + |orders|, now)
  {
    assert (orders + [o])[..|orders|] == orders;
  }

  /** The first `k` groups all convert. */
  predicate Converts(gs: seq<Group>, k: nat) {
    k <= |gs| && forall i :: 0 <= i < k ==> |gs[i].entries| > 0 && OrderOf(gs[i]).Ok?
  }

  /** The groups that are saved convert. */
  lemma CommittedConverts(gs: seq<Group>, n: nat, records: Table<MedicalRecordRow>, users: Table<UserRow>,
                          protocols: Table<ProtocolRow>, medications: Table<MedicationRow>)
    requires n <= Committed(gs, records, users, protocols, medications)
    ensures Converts(gs, n)
  {
    forall i | 0 <= i < n
      ensures |gs[i].entries| > 0 && OrderOf(gs[i]).Ok?
    {
      assert Accepted(gs[i], records, users, protocols, medications);
    }
  }

  /** Saving one more order adds its header row to the prescriptions. */
  lemma HeaderStep(rx0: Table<PrescriptionRow>, done: seq<Order>, o: Order, today: Date, now: DateTime,
                   before: Table<PrescriptionRow>, rx: Table<PrescriptionRow>)
    requires forall o :: o in done ==> Complete(o.header)
    requires Complete(o.header)
    requires before == rx0.InsertAll(HeaderRows(done, today, now))
    requires rx == before.Insert(Rx.NewPrescription(o.header, today, now))
    ensures rx == rx0.InsertAll(HeaderRows(done + [o], today, now))
  {
    RowsSnoc(done, o, rx0.next, today, now);
    rx0.InsertAllSnoc(HeaderRows(done, today, now), Rx.NewPrescription(o.header, today, now));
  }

  /** Saving one more order adds its item rows, stamped with its key `id`,
      the key after those of the earlier orders. */
  lemma ItemsAppended(items0: Table<ItemRow>, done: seq<Order>, o: Order, firstId: int, id: int, now: DateTime,
                      before: Table<ItemRow>, items: Table<ItemRow>)
    requires id == firstId + |done|
    requires before == items0.InsertAll(ItemRows(done, firstId, now))
    requires items == before.InsertAll(Rx.StampedRows(o.items, id, now))
    ensures items == items0.InsertAll(ItemRows(done + [o], firstId, now))
  {
    ItemRowsSnoc(done, o, firstId, id, now);
    items0.InsertAllAppend(ItemRows(done, firstId, now), Rx.StampedRows(o.items, id, now));
  }

  lemma ItemRowsSnoc(orders: seq<Order>, o: Order, firstId: int, id: int, now: DateTime)
    requires id == firstId + |orders|
    ensures ItemRows(orders + [o], firstId, now) == ItemRows(orders, firstId, now) + Rx.StampedRows(o.items, id, now)
  {
    assert (orders + [o])[..|orders|] == orders;
  }

  /** The orders of the first `k` groups, all of which convert. */
  function OrdersOf(gs: seq<Group>, k: nat): (r: seq<Order>)
    requires Converts(gs, k)
    ensures |r| == k && forall o :: o in r ==> Complete(o.header)
  {
    if k == 0 then []
    else OrdersOf(gs, k - 1) + [OrderOf(gs[k - 1]).value]
  }

  /** One group of `createPrescriptionsBatch`: the header and the items are
      read from its objects, then `createFullPrescription` saves them. A group
      that does not convert changes nothing; one that the save rejects is
      rolled back with it. */
  method SaveGroup(db: Database, g: Group, today: Date, now: DateTime) returns (r: Result<int>)
    requires Rx.Linked(db) && |g.entries| > 0
    modifies db`prescriptions, db`items, db`medReminders
    ensures Rx.Linked(db)
    ensures r.Ok? <==> Accepted(g, db.records, db.users, db.protocols, db.medications)
    ensures r.Err? ==> (
      && r.error == (if OrderOf(g).Err? then OrderOf(g).error else DataIntegrityViolationException)
      && db.prescriptions == old(db.prescriptions) && db.items == old(db.items)
      && db.medReminders == old(db.medReminders))
    ensures r.Ok? ==> (
      && r.value == old(db.prescriptions.next)
      && db.prescriptions == old(db.prescriptions).Insert(Rx.NewPrescription(OrderOf(g).value.header, today, now))
      && db.items == old(db.items).InsertAll(Rx.StampedRows(OrderOf(g).value.items, r.value, now)))
  {
    var header := Header(g.key, g.entries);
    if header.Err? {
      return Err(header.error);
    }
    var items := BuildItems(g.entries);
    if items.Err? {
      return Err(items.error);
    }
    var order := Order(header.value, items.value);
    assert OrderOf(g) == Ok(order);
    r := Rx.CreateFullPrescription(db, order.header, order.items, today, now);
  }

  /** The group after the saved ones fails the batch with its own error. */
  lemma FailsAt(gs: seq<Group>, i: nat, records: Table<MedicalRecordRow>, users: Table<UserRow>,
                protocols: Table<ProtocolRow>, medications: Table<MedicationRow>, firstId: int)
    requires i < |gs| && i <= Committed(gs, records, users, protocols, medications)
    requires !Accepted(gs[i], records, users, protocols, medications)
    ensures Committed(gs, records, users, protocols, medications) == i
    ensures Converts(gs, i)
    ensures GroupsOutcome(gs, records, users, protocols, medications, firstId) ==
      if |gs[i].entries| > 0 && OrderOf(gs[i]).Err? then Failed(OrderOf(gs[i]).error) else Failed(DataIntegrityViolationException)
  {
    CommittedConverts(gs, i, records, users, protocols, medications);
  }

  /** A group that is saved extends the saved orders by its own. */
  lemma SavedAt(gs: seq<Group>, i: nat, records: Table<MedicalRecordRow>, users: Table<UserRow>,
                protocols: Table<ProtocolRow>, medications: Table<MedicationRow>)
    requires i < |gs| && i <= Committed(gs, records, users, protocols, medications)
    requires Accepted(gs[i], records, users, protocols, medications)
    ensures i + 1 <= Committed(gs, records, users, protocols, medications)
    ensures Converts(gs, i) && Converts(gs, i + 1)
    ensures OrdersOf(gs, i + 1) == OrdersOf(gs, i) + [OrderOf(gs[i]).value]
  {
    CommittedConverts(gs, i + 1, records, users, protocols, medications);
  }

  /** What the group loop has saved after `i` groups: they were all
      accepted, and their headers and items are in `rx` and `items`. */
  predicate SavedGroups(gs: seq<Group>, i: nat, records: Table<MedicalRecordRow>, users: Table<UserRow>,
                        protocols: Table<ProtocolRow>, medications: Table<MedicationRow>,
                        rx0: Table<PrescriptionRow>, items0: Table<ItemRow>, done: seq<Order>, today: Date,
                        now: DateTime, rx: Table<PrescriptionRow>, items: Table<ItemRow>)
  {
    && i <= |gs| && i <= Committed(gs, records, users, protocols, medications) && Converts(gs, i)
    && done == OrdersOf(gs, i) && |done| == i
    && rx == rx0.InsertAll(HeaderRows(done, today, now))
    && items == items0.InsertAll(ItemRows(done, rx0.next, now))
  }

  /** Saving the next accepted group extends what is saved by its order,
      under the key that follows the earlier groups' keys. */
  lemma SavedNextGroup(gs: seq<Group>, i: nat, records: Table<MedicalRecordRow>, users: Table<UserRow>,
                       protocols: Table<ProtocolRow>, medications: Table<MedicationRow>,
                       rx0: Table<PrescriptionRow>, items0: Table<ItemRow>, done: seq<Order>, today: Date,
                       now: DateTime, rx: Table<PrescriptionRow>, items: Table<ItemRow>,
                       id: int, rx': Table<PrescriptionRow>, items': Table<ItemRow>)
    requires SavedGroups(gs, i, records, users, protocols, medications, rx0, items0, done, today, now, rx, items)
    requires i < |gs| && Accepted(gs[i], records, users, protocols, medications)
    requires rx' == rx.Insert(Rx.NewPrescription(OrderOf(gs[i]).value.header, today, now))
    requires id == rx.next && items' == items.InsertAll(Rx.StampedRows(OrderOf(gs[i]).value.items, id, now))
    ensures id == rx0.next + i
    ensures SavedGroups(gs, i + 1, records, users, protocols, medications, rx0, items0, done + [OrderOf(gs[i]).value],
                        today, now, rx', items')
  {
    SavedAt(gs, i, records, users, protocols, medications);
    var order := OrderOf(gs[i]).value;
    var headers := HeaderRows(done, today, now);
    assert rx == rx0.InsertAll(headers) && |headers| == |done|;
    HeaderStep(rx0, done, order, today, now, rx, rx');
    ItemsAppended(items0, done, order, rx0.next, id, now, items, items');
  }

  /** One round of the group loop: group `i` is saved, or it fails and is
      the group the outcome reports. */
  method SaveStep(db: Database, gs: seq<Group>, i: nat, today: Date, now: DateTime,
                  ghost rx0: Table<PrescriptionRow>, ghost items0: Table<ItemRow>, ghost done: seq<Order>)
    returns (saved: Result<int>)
    requires Rx.Linked(db) && i < |gs| && |gs[i].entries| > 0
    requires SavedGroups(gs, i, db.records, db.users, db.protocols, db.medications, rx0, items0, done, today, now,
                         db.prescriptions, db.items)
    modifies db`prescriptions, db`items, db`medReminders
    ensures Rx.Linked(db)
    ensures saved.Err? ==>
      Failed(saved.error) == GroupsOutcome(gs, db.records, db.users, db.protocols, db.medications, rx0.next)
      && OrdersOf(gs, Committed(gs, db.records, db.users, db.protocols, db.medications)) == done
      && db.prescriptions == old(db.prescriptions) && db.items == old(db.items)
    ensures saved.Ok? ==> (
      && saved.value == rx0.next + i && OrderOf(gs[i]).Ok?
      && SavedGroups(gs, i + 1, db.records, db.users, db.protocols, db.medications, rx0, items0,
                     done + [OrderOf(gs[i]).value], today, now, db.prescriptions, db.items))
  {
    ghost var rx, items := db.prescriptions, db.items;
    saved := SaveGroup(db, gs[i], today, now);
    if saved.Err? {
      FailsAt(gs, i, db.records, db.users, db.protocols, db.medications, rx0.next);
      return;
    }
    SavedNextGroup(gs, i, db.records, db.users, db.protocols, db.medications, rx0, items0, done, today, now,
                   rx, items, saved.value, db.prescriptions, db.items);
  }

  /** After every group was saved, the outcome lists their new keys. */
  lemma AllSaved(gs: seq<Group>, records: Table<MedicalRecordRow>, users: Table<UserRow>,
                 protocols: Table<ProtocolRow>, medications: Table<MedicationRow>, firstId: int)
    requires |gs| <= Committed(gs, records, users, protocols, medications)
    ensures Committed(gs, records, users, protocols, medications) == |gs|
    ensures GroupsOutcome(gs, records, users, protocols, medications, firstId)
      == Created(Plans.KeysFrom(firstId, |gs|), |gs|, SuccessMessage(|gs|))
  {
  }

  /** The loop of `createPrescriptionsBatch` over the groups: each group is
      saved in its own transaction, and the first that fails ends the loop. */
  method SaveGroups(db: Database, gs: seq<Group>, today: Date, now: DateTime) returns (r: Response)
    requires Rx.Linked(db) && forall i :: 0 <= i < |gs| ==> |gs[i].entries| > 0
    modifies db`prescriptions, db`items, db`medReminders
    ensures Rx.Linked(db)
    ensures r == GroupsOutcome(gs, db.records, db.users, db.protocols, db.medications, old(db.prescriptions.next))
    ensures
      var saved := OrdersOf(gs, Committed(gs, db.records, db.users, db.protocols, db.medications));
      && db.prescriptions == old(db.prescriptions).InsertAll(HeaderRows(saved, today, now))
      && db.items == old(db.items).InsertAll(ItemRows(saved, old(db.prescriptions.next), now))
  {
    var rx0, items0 := db.prescriptions, db.items;
    ghost var done: seq<Order> := [];
    var ids: seq<int> := [];
    var i := 0;
    CommittedConverts(gs, 0, db.records, db.users, db.protocols, db.medications);
    assert HeaderRows(done, today, now) == [] && ItemRows(done, rx0.next, now) == [];
    while i < |gs|
      invariant Rx.Linked(db)
      invariant SavedGroups(gs, i, db.records, db.users, db.protocols, db.medications, rx0, items0, done, today, now,
                            db.prescriptions, db.items)
      invariant ids == Plans.KeysFrom(rx0.next, i)
    {
      var saved := SaveStep(db, gs, i, today, now, rx0, items0, done);
      if saved.Err? {
        return Failed(saved.error);
      }
      Plans.KeysFromSnoc(ids, rx0.next, i, saved.value);
      done := done + [OrderOf(gs[i]).value];
      ids := ids + [saved.value];
      i := i + 1;
    }
    AllSaved(gs, db.records, db.users, db.protocols, db.medications, rx0.next);
    r := Created(ids, |ids|, SuccessMessage(|ids|));
  }

  /** `createPrescriptionsBatch`, with `today` and `now` for the clock. The
      result is the response of `Outcome`; the groups before the first
      failing one are saved with their items, and nothing of the failing
      group is. */
  method CreatePrescriptionsBatch(db: Database, batch: seq<Entry>, today: Date, now: DateTime) returns (r: Response)
    requires Rx.Linked(db)
    modifies db`prescriptions, db`items, db`medReminders
    ensures Rx.Linked(db)
    ensures r == Outcome(batch, db.records, db.users, db.protocols, db.medications, old(db.prescriptions.next))
    ensures Groups(batch).Err? ==>
      db.prescriptions == old(db.prescriptions) && db.items == old(db.items) && db.medReminders == old(db.medReminders)
    ensures Groups(batch).Ok? ==> (
      var saved := OrdersOf(Groups(batch).value, Committed(Groups(batch).value, db.records, db.users, db.protocols, db.medications));
      && db.prescriptions == old(db.prescriptions).InsertAll(HeaderRows(saved, today, now))
      && db.items == old(db.items).InsertAll(ItemRows(saved, old(db.prescriptions.next), now)))
  {
    var grouped := Groups(batch);
    if grouped.Err? {
      return Failed(grouped.error);
    }
    GroupsPartition(batch, GroupKeys(batch).value);
    r := SaveGroups(db, grouped.value, today, now);
  }
}
