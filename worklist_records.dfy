/**
 * The worklist REST side's record helpers: field extraction from a worklist
 * dataset and the single-statement operations on the `mwl` and `mpps`
 * tables, each on its own connection with its own commit. A driver or codec
 * exception is the `fault` parameter: the helper then reports failure and
 * the tables keep their state.
 */
module WorklistRecords {
  import opened Wrappers
  import opened DicomData
  import opened Store
  import Text

  /** The indexed columns `extract_mwl_fields` reports. */
  datatype MwlFields = MwlFields(
    accessionNumber: Value,
    studyInstanceUid: Value,
    patientId: Value,
    patientName: Value,
    scheduledStartDate: Value,
    scheduledStationAeTitle: Value)

  /** Python's `str(v)` for the values whose rendering the model fixes:
      `None` prints as "None", an integer in decimal; list-like values are
      kept unrendered. */
  function PyStr(v: Value): (r: Value)
    ensures r.Str? || r.Multi? || r.Sq?
    ensures v.Str? ==> r == v
  {
    match v
    case Null => Str("None")
    case Str(_) => v
    case Int(i) => Str(Text.IntToString(i))
    case Multi(_) => v
    case Sq(_) => v
  }

  /** `extract_mwl_fields`: the top-level identifiers; a missing PatientName
      reads as the empty string, and the two scheduling columns are always
      left empty here. */
  function ExtractMwlFields(ds: Dataset): (r: MwlFields)
    ensures r.scheduledStartDate == Null && r.scheduledStationAeTitle == Null
    ensures !Has(ds, "PatientName") ==> r.patientName == Str("")
    ensures Lookup(ds, "PatientName").Str? ==> r.patientName == Lookup(ds, "PatientName")
    ensures r.accessionNumber == Lookup(ds, "AccessionNumber")
    ensures r.studyInstanceUid == Lookup(ds, "StudyInstanceUID")
    ensures r.patientId == Lookup(ds, "PatientID")
  {
    MwlFields(
      Lookup(ds, "AccessionNumber"),
      Lookup(ds, "StudyInstanceUID"),
      Lookup(ds, "PatientID"),
      PyStr(GetAttr(ds, "PatientName", Str(""))),
      Null,
      Null)
  }

  /** `extract_scheduled_fields`: start date and station AE title of the
      first Scheduled Procedure Step item. An absent or empty sequence gives
      two `None`s. A non-empty text value indexes to a character, which has
      neither attribute; a non-zero integer cannot be indexed and raises,
      modelled as `None`. */
  function ExtractScheduledFields(ds: Dataset): (r: Option<(Value, Value)>)
    ensures !Truthy(Lookup(ds, "ScheduledProcedureStepSequence")) ==> r == Some((Null, Null))
    ensures Lookup(ds, "ScheduledProcedureStepSequence").Sq? && Truthy(Lookup(ds, "ScheduledProcedureStepSequence")) ==>
      var first := Lookup(ds, "ScheduledProcedureStepSequence").items[0];
      r == Some((Lookup(first, "ScheduledProcedureStepStartDate"), Lookup(first, "ScheduledStationAETitle")))
    ensures r.None? <==> Lookup(ds, "ScheduledProcedureStepSequence").Int? && Truthy(Lookup(ds, "ScheduledProcedureStepSequence"))
  {
    var sps := Lookup(ds, "ScheduledProcedureStepSequence");
    if !Truthy(sps) then Some((Null, Null))
    else match sps
      case Sq(items) =>
        Some((Lookup(items[0], "ScheduledProcedureStepStartDate"), Lookup(items[0], "ScheduledStationAETitle")))
      case Int(_) => None
      case _ => Some((Null, Null))
  }

  /** The `mwl` row `insert_mwl_record` writes (its id comes from the table). */
  function NewWorklistRow(ds: Dataset, scheduled: (Value, Value)): MwlRow {
    var fields := ExtractMwlFields(ds);
    MwlRow(
      id := 0,
      completed := false,
      accessionNumber := fields.accessionNumber,
      studyInstanceUid := fields.studyInstanceUid,
      patientId := fields.patientId,
      patientName := fields.patientName,
      scheduledStartDate := scheduled.0,
      scheduledStationAeTitle := scheduled.1,
      dataset := Encode(ds))
  }

  /** `insert_mwl_record`: appends one pending row and returns its id, or
      returns `None` and leaves the table unchanged. */
  method InsertMwlRecord(db: Datastore, ds: Dataset, fault: bool) returns (id: Option<nat>)
    requires db.Valid()
    modifies db
    ensures db.Valid()
    ensures db.mpps == old(db.mpps) && db.nextMppsId == old(db.nextMppsId)
    ensures var scheduled := ExtractScheduledFields(ds);
      if fault || scheduled.None? then
        id == None && db.mwl == old(db.mwl) && db.nextMwlId == old(db.nextMwlId)
      else
        id == Some(old(db.nextMwlId))
        && db.mwl == old(db.mwl) + [NewWorklistRow(ds, scheduled.value).(id := old(db.nextMwlId))]
        && db.nextMwlId == old(db.nextMwlId) + 1
  {
    var scheduled := ExtractScheduledFields(ds);
    if scheduled.None? {
      return None;
    }
    var rows, nextMwl := db.mwl, db.nextMwlId;
    var rowId := db.InsertMwl(NewWorklistRow(ds, scheduled.value));
    if fault {
      db.Restore(rows, db.mpps, nextMwl, db.nextMppsId);
      return None;
    }
    return Some(rowId);
  }

  /** `get_mwl_by_accession`: the first pending row with the accession
      number, or `None` when there is none or the query fails. */
  method GetMwlByAccession(db: Datastore, acc: Value, fault: bool) returns (row: Option<MwlRow>)
    ensures row.Some? ==> row.value in db.mwl && !row.value.completed && SqlEquals(row.value.accessionNumber, acc)
    ensures !fault ==> row == (match FirstPendingWithAccession(db.mwl, acc)
                               case Some(i) => Some(db.mwl[i])
                               case None => None)
    ensures fault ==> row == None
  {
    if fault {
      return None;
    }
    var i := 0;
    while i < |db.mwl|
      invariant 0 <= i <= |db.mwl|
      invariant forall j :: 0 <= j < i ==> db.mwl[j].completed || !SqlEquals(db.mwl[j].accessionNumber, acc)
    {
      if !db.mwl[i].completed && SqlEquals(db.mwl[i].accessionNumber, acc) {
        return Some(db.mwl[i]);
      }
      i := i + 1;
    }
    return None;
  }

  /** A freshly inserted row is found by its accession number when no
      earlier pending row carries the same one. */
  lemma {:induction false} FindInserted(rows: seq<MwlRow>, row: MwlRow, acc: Value)
    requires forall j :: 0 <= j < |rows| ==> rows[j].completed || !SqlEquals(rows[j].accessionNumber, acc)
    requires !row.completed && SqlEquals(row.accessionNumber, acc)
    ensures FirstPendingWithAccession(rows + [row], acc) == Some(|rows|)
  {
    if rows != [] {
      assert (rows + [row])[1..] == rows[1..] + [row];
      FindInserted(rows[1..], row, acc);
    }
  }

  /** `mark_mwl_completed`: every row with the accession number, and no
      other, becomes completed; the result says whether any row matched. */
  method MarkMwlCompleted(db: Datastore, acc: Value, fault: bool) returns (done: bool)
    requires db.Valid()
    modifies db
    ensures db.Valid()
    ensures db.mpps == old(db.mpps) && db.nextMwlId == old(db.nextMwlId) && db.nextMppsId == old(db.nextMppsId)
    ensures fault ==> !done && db.mwl == old(db.mwl)
    ensures !fault ==> db.mwl == MarkCompleted(old(db.mwl), acc) && done == (CountAccession(old(db.mwl), acc) > 0)
  {
    var rows := db.mwl;
    var affected := db.SetCompleted(acc);
    if fault {
      db.Restore(rows, db.mpps, db.nextMwlId, db.nextMppsId);
      return false;
    }
    return affected > 0;
  }

  /** Some row is affected exactly when some row carries the accession number. */
  lemma {:induction false} CountAccessionPositive(rows: seq<MwlRow>, acc: Value)
    ensures CountAccession(rows, acc) > 0 <==> exists i :: 0 <= i < |rows| && SqlEquals(rows[i].accessionNumber, acc)
  {
    if rows != [] {
      CountAccessionPositive(rows[1..], acc);
      if SqlEquals(rows[0].accessionNumber, acc) {
        assert SqlEquals(rows[0].accessionNumber, acc);
      } else {
        forall i | 1 <= i < |rows| && SqlEquals(rows[i].accessionNumber, acc)
          ensures SqlEquals(rows[1..][i - 1].accessionNumber, acc)
        {
        }
      }
    }
  }

  /** The `mpps` row `insert_mpps_record` writes: the status is stored as
      given, IN_PROGRESS only when the attribute is absent. */
  function RecordedStep(sopUid: Value, ds: Dataset, mwlId: Option<nat>): (r: MppsRow)
    ensures Has(ds, "PerformedProcedureStepStatus") ==> r.status == Lookup(ds, "PerformedProcedureStepStatus")
    ensures !Has(ds, "PerformedProcedureStepStatus") ==> r.status == Str("IN_PROGRESS")
    ensures r.sopInstanceUid == sopUid && r.mwlId == mwlId && Decode(r.datasetBlob) == Some(ds)
  {
    MppsRow(
      id := 0,
      sopInstanceUid := sopUid,
      mwlId := mwlId,
      accessionNumber := Lookup(ds, "AccessionNumber"),
      studyInstanceUid := Lookup(ds, "StudyInstanceUID"),
      patientId := Lookup(ds, "PatientID"),
      status := GetAttr(ds, "PerformedProcedureStepStatus", Str("IN_PROGRESS")),
      performedProcedureStepId := Lookup(ds, "PerformedProcedureStepID"),
      performedStationAeTitle := Lookup(ds, "PerformedStationAETitle"),
      datasetBlob := Encode(ds),
      completedAt := None)
  }

  /** `insert_mpps_record`: appends one row and returns its id, or returns
      `None` and leaves the table unchanged. */
  method InsertMppsRecord(db: Datastore, sopUid: Value, ds: Dataset, mwlId: Option<nat>, fault: bool)
    returns (id: Option<nat>)
    requires db.Valid()
    modifies db
    ensures db.Valid()
    ensures db.mwl == old(db.mwl) && db.nextMwlId == old(db.nextMwlId)
    ensures fault ==> id == None && db.mpps == old(db.mpps) && db.nextMppsId == old(db.nextMppsId)
    ensures !fault ==>
      id == Some(old(db.nextMppsId))
      && db.mpps == old(db.mpps) + [RecordedStep(sopUid, ds, mwlId).(id := old(db.nextMppsId))]
      && db.nextMppsId == old(db.nextMppsId) + 1
  {
    var steps, nextMpps := db.mpps, db.nextMppsId;
    var rowId := db.InsertMpps(RecordedStep(sopUid, ds, mwlId));
    if fault {
      db.Restore(db.mwl, steps, db.nextMwlId, nextMpps);
      return None;
    }
    return Some(rowId);
  }

  /** `update_mpps_status`: writes the status as given and the time to every
      row with the UID, and the dataset too when a non-empty one is passed;
      the result says whether any row matched. */
  method UpdateMppsStatus(db: Datastore, sopUid: Value, status: Value, ds: Option<Dataset>, now: Timestamp, fault: bool)
    returns (done: bool)
    requires db.Valid()
    modifies db
    ensures db.Valid()
    ensures db.mwl == old(db.mwl) && db.nextMwlId == old(db.nextMwlId) && db.nextMppsId == old(db.nextMppsId)
    ensures fault ==> !done && db.mpps == old(db.mpps)
    ensures !fault ==>
      var blob := if ds.Some? && NonEmpty(ds.value) then Some(Encode(ds.value)) else None;
      db.mpps == UpdateStatus(old(db.mpps), sopUid, status, blob, now)
      && done == (CountUid(old(db.mpps), sopUid) > 0)
  {
    var steps := db.mpps;
    var blob := if ds.Some? && NonEmpty(ds.value) then Some(Encode(ds.value)) else None;
    var affected := db.SetStatus(sopUid, status, blob, now);
    if fault {
      db.Restore(db.mwl, steps, db.nextMwlId, db.nextMppsId);
      return false;
    }
    return affected > 0;
  }
}
