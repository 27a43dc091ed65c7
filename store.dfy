/**
 * The worklist database as the MWL/MPPS service and the worklist REST helpers
 * use it: the `mwl` table of scheduled procedures and the `mpps` table of
 * performed procedure steps, kept in datastore order, each with an
 * auto-increment id. Every SQL statement those components issue is one
 * method of `Datastore`; `Restore` is the rollback of an uncommitted transaction.
 */
module Store {
  import opened Wrappers
  import opened DicomData

  /** A `NOW()` value, supplied by the caller. */
  type Timestamp = nat

  /** A row of `mwl`: the indexed fields extracted at creation and the encoded dataset. */
  datatype MwlRow = MwlRow(
    id: nat,
    completed: bool,
    accessionNumber: Value,
    studyInstanceUid: Value,
    patientId: Value,
    patientName: Value,
    scheduledStartDate: Value,
    scheduledStationAeTitle: Value,
    dataset: Blob)

  /** A row of `mpps`. */
  datatype MppsRow = MppsRow(
    id: nat,
    sopInstanceUid: Value,
    mwlId: Option<nat>,
    accessionNumber: Value,
    studyInstanceUid: Value,
    patientId: Value,
    status: Value,
    performedProcedureStepId: Value,
    performedStationAeTitle: Value,
    datasetBlob: Blob,
    completedAt: Option<Timestamp>)

  /** SQL `column = %s`: NULL on either side matches nothing. */
  predicate SqlEquals(column: Value, param: Value) {
    column != Null && column == param
  }

  /** The rows `WHERE completed = 0`, in datastore order. */
  function Pending(rows: seq<MwlRow>): (r: seq<MwlRow>)
    ensures |r| <= |rows|
    ensures forall i :: 0 <= i < |r| ==> !r[i].completed && r[i] in rows
    ensures forall x :: x in rows && !x.completed ==> x in r
  {
    if rows == [] then []
    else (if rows[0].completed then [] else [rows[0]]) + Pending(rows[1..])
  }

  /** At most one pending row has the accession number, so a select that
      fetches one row leaves no row unread. */
  predicate AtMostOnePending(rows: seq<MwlRow>, acc: Value) {
    forall i, j ::
      (0 <= i < |rows| && 0 <= j < |rows| && !rows[i].completed && !rows[j].completed
       && SqlEquals(rows[i].accessionNumber, acc) && SqlEquals(rows[j].accessionNumber, acc)) ==> i == j
  }

  /** The index of the first pending row with the given accession number
      (`SELECT ... WHERE AccessionNumber = %s AND completed = 0`, first row). */
  function FirstPendingWithAccession(rows: seq<MwlRow>, acc: Value): (r: Option<nat>)
    ensures r.Some? ==> r.value < |rows| && !rows[r.value].completed
                        && SqlEquals(rows[r.value].accessionNumber, acc)
                        && forall j :: 0 <= j < r.value ==>
                             rows[j].completed || !SqlEquals(rows[j].accessionNumber, acc)
    ensures r.None? ==> forall j :: 0 <= j < |rows| ==>
                          rows[j].completed || !SqlEquals(rows[j].accessionNumber, acc)
  {
    if rows == [] then None
    else if !rows[0].completed && SqlEquals(rows[0].accessionNumber, acc) then Some(0)
    else match FirstPendingWithAccession(rows[1..], acc)
      case None => None
      case Some(i) => Some(i + 1)
  }

  /** `UPDATE mwl SET completed = 1 WHERE AccessionNumber = %s`. */
  function MarkCompleted(rows: seq<MwlRow>, acc: Value): seq<MwlRow> {
    seq(|rows|, i requires 0 <= i < |rows| => CompleteRow(rows[i], acc))
  }

  /** One row under that update. */
  function CompleteRow(row: MwlRow, acc: Value): MwlRow {
    if SqlEquals(row.accessionNumber, acc) then row.(completed := true) else row
  }

  /** The number of `mwl` rows with the accession number. */
  function CountAccession(rows: seq<MwlRow>, acc: Value): nat {
    if rows == [] then 0
    else (if SqlEquals(rows[0].accessionNumber, acc) then 1 else 0) + CountAccession(rows[1..], acc)
  }

  /** `UPDATE mpps SET status = %s, completed_at = NOW()[, dataset_blob = %s]
      WHERE sop_instance_uid = %s`; `blob` is `None` for the form without
      the dataset column. */
  function UpdateStatus(rows: seq<MppsRow>, uid: Value, status: Value, blob: Option<Blob>, now: Timestamp): seq<MppsRow> {
    seq(|rows|, i requires 0 <= i < |rows| => UpdateRow(rows[i], uid, status, blob, now))
  }

  /** One row under that update. */
  function UpdateRow(row: MppsRow, uid: Value, status: Value, blob: Option<Blob>, now: Timestamp): MppsRow {
    if SqlEquals(row.sopInstanceUid, uid)
    then row.(status := status, completedAt := Some(now), datasetBlob := blob.GetOr(row.datasetBlob))
    else row
  }

  /** The number of `mpps` rows with the SOP Instance UID: the `rowcount` of
      an update keyed on it. */
  function CountUid(rows: seq<MppsRow>, uid: Value): nat {
    if rows == [] then 0
    else (if SqlEquals(rows[0].sopInstanceUid, uid) then 1 else 0) + CountUid(rows[1..], uid)
  }

  /** `SELECT AccessionNumber FROM mpps WHERE sop_instance_uid = %s`, first row. */
  function AccessionForUid(rows: seq<MppsRow>, uid: Value): (r: Option<Value>)
    ensures r.Some? <==> exists i :: 0 <= i < |rows| && SqlEquals(rows[i].sopInstanceUid, uid)
  {
    if rows == [] then None
    else if SqlEquals(rows[0].sopInstanceUid, uid) then Some(rows[0].accessionNumber)
    else AccessionForUid(rows[1..], uid)
  }

  /** An update that matches no row leaves the table as it was. */
  lemma {:induction false} UpdateStatusNoMatch(rows: seq<MppsRow>, uid: Value, status: Value, blob: Option<Blob>, now: Timestamp)
    requires CountUid(rows, uid) == 0
    ensures UpdateStatus(rows, uid, status, blob, now) == rows
  {
    CountUidZero(rows, uid);
  }

  lemma {:induction false} CountUidZero(rows: seq<MppsRow>, uid: Value)
    ensures CountUid(rows, uid) == 0 <==> forall i :: 0 <= i < |rows| ==> !SqlEquals(rows[i].sopInstanceUid, uid)
  {
    if rows != [] {
      CountUidZero(rows[1..], uid);
      assert forall i :: 1 <= i < |rows| ==> rows[i] == rows[1..][i - 1];
    }
  }

  /** The update keeps every row's UID and accession number, so the
      accession number found for a UID is the same before and after it. */
  lemma {:induction false} AccessionForUidAfterUpdate(rows: seq<MppsRow>, uid: Value, key: Value, status: Value, blob: Option<Blob>, now: Timestamp)
    ensures AccessionForUid(UpdateStatus(rows, uid, status, blob, now), key) == AccessionForUid(rows, key)
  {
    if rows != [] {
      var updated := UpdateStatus(rows, uid, status, blob, now);
      assert updated[1..] == UpdateStatus(rows[1..], uid, status, blob, now);
      AccessionForUidAfterUpdate(rows[1..], uid, key, status, blob, now);
    }
  }

  /** After the cascade, no row with the accession number is pending. */
  lemma {:induction false} NoPendingAfterMarkCompleted(rows: seq<MwlRow>, acc: Value)
    ensures forall r :: r in Pending(MarkCompleted(rows, acc)) ==> !SqlEquals(r.accessionNumber, acc)
  {
    var marked := MarkCompleted(rows, acc);
    forall r | r in Pending(marked)
      ensures !SqlEquals(r.accessionNumber, acc)
    {
      var i :| 0 <= i < |marked| && marked[i] == r;
    }
  }

  lemma MarkCompletedIds(rows: seq<MwlRow>, acc: Value)
    ensures MwlIds(MarkCompleted(rows, acc)) == MwlIds(rows)
  {
  }

  lemma UpdateStatusIds(rows: seq<MppsRow>, uid: Value, status: Value, blob: Option<Blob>, now: Timestamp)
    ensures MppsIds(UpdateStatus(rows, uid, status, blob, now)) == MppsIds(rows)
  {
  }

  /** Ids are handed out in increasing order and stay below the counter. */
  ghost predicate IdsIncreasing(ids: seq<nat>, next: nat) {
    (forall i :: 0 <= i < |ids| ==> ids[i] < next)
    && (forall i, j :: 0 <= i < j < |ids| ==> ids[i] < ids[j])
  }

  function MwlIds(rows: seq<MwlRow>): seq<nat> {
    seq(|rows|, i requires 0 <= i < |rows| => rows[i].id)
  }

  function MppsIds(rows: seq<MppsRow>): seq<nat> {
    seq(|rows|, i requires 0 <= i < |rows| => rows[i].id)
  }

  class Datastore {
    var mwl: seq<MwlRow>
    var mpps: seq<MppsRow>
    var nextMwlId: nat
    var nextMppsId: nat

    ghost predicate Valid()
      reads this
    {
      IdsIncreasing(MwlIds(mwl), nextMwlId) && IdsIncreasing(MppsIds(mpps), nextMppsId)
    }

    /** An empty database; MySQL auto-increment ids start at 1. */
    constructor ()
      ensures Valid() && mwl == [] && mpps == [] && nextMwlId == 1 && nextMppsId == 1
    {
      mwl, mpps := [], [];
      nextMwlId, nextMppsId := 1, 1;
    }

    /** `INSERT INTO mwl (...)`: the row takes the next id. */
    method InsertMwl(row: MwlRow) returns (id: nat)
      requires Valid()
      modifies this
      ensures Valid()
      ensures id == old(nextMwlId) && nextMwlId == id + 1
      ensures mwl == old(mwl) + [row.(id := id)]
      ensures mpps == old(mpps) && nextMppsId == old(nextMppsId)
    {
      id := nextMwlId;
      mwl := mwl + [row.(id := id)];
      nextMwlId := nextMwlId + 1;
      assert MwlIds(mwl) == MwlIds(old(mwl)) + [id];
    }

    /** `INSERT INTO mpps (...)`: the row takes the next id. */
    method InsertMpps(row: MppsRow) returns (id: nat)
      requires Valid()
      modifies this
      ensures Valid()
      ensures id == old(nextMppsId) && nextMppsId == id + 1
      ensures mpps == old(mpps) + [row.(id := id)]
      ensures mwl == old(mwl) && nextMwlId == old(nextMwlId)
    {
      id := nextMppsId;
      mpps := mpps + [row.(id := id)];
      nextMppsId := nextMppsId + 1;
      assert MppsIds(mpps) == MppsIds(old(mpps)) + [id];
    }

    /** `UPDATE mwl SET completed = 1 WHERE AccessionNumber = %s`, row by row. */
    method SetCompleted(acc: Value) returns (affected: nat)
      requires Valid()
      modifies this
      ensures Valid()
      ensures mwl == MarkCompleted(old(mwl), acc) && affected == CountAccession(old(mwl), acc)
      ensures mpps == old(mpps) && nextMwlId == old(nextMwlId) && nextMppsId == old(nextMppsId)
    {
      ghost var rows := mwl;
      var i := 0;
      affected := 0;
      while i < |mwl|
        invariant 0 <= i <= |mwl| == |rows|
        invariant forall k :: 0 <= k < i ==> mwl[k] == CompleteRow(rows[k], acc)
        invariant forall k :: i <= k < |mwl| ==> mwl[k] == rows[k]
        invariant affected + CountAccession(rows[i..], acc) == CountAccession(rows, acc)
        invariant rows == old(mwl) && mpps == old(mpps)
        invariant nextMwlId == old(nextMwlId) && nextMppsId == old(nextMppsId)
      {
        assert rows[i..][1..] == rows[i + 1..];
        if SqlEquals(mwl[i].accessionNumber, acc) {
          affected := affected + 1;
        }
        mwl := mwl[i := CompleteRow(mwl[i], acc)];
        i := i + 1;
      }
      assert mwl == MarkCompleted(rows, acc);
      MarkCompletedIds(rows, acc);
    }

    /** `UPDATE mpps SET status = %s, completed_at = NOW()[, dataset_blob = %s]
        WHERE sop_instance_uid = %s`, row by row. */
    method SetStatus(uid: Value, status: Value, blob: Option<Blob>, now: Timestamp) returns (affected: nat)
      requires Valid()
      modifies this
      ensures Valid()
      ensures mpps == UpdateStatus(old(mpps), uid, status, blob, now) && affected == CountUid(old(mpps), uid)
      ensures mwl == old(mwl) && nextMwlId == old(nextMwlId) && nextMppsId == old(nextMppsId)
    {
      ghost var rows := mpps;
      var i := 0;
      affected := 0;
      while i < |mpps|
        invariant 0 <= i <= |mpps| == |rows|
        invariant forall k :: 0 <= k < i ==> mpps[k] == UpdateRow(rows[k], uid, status, blob, now)
        invariant forall k :: i <= k < |mpps| ==> mpps[k] == rows[k]
        invariant affected + CountUid(rows[i..], uid) == CountUid(rows, uid)
        invariant rows == old(mpps) && mwl == old(mwl)
        invariant nextMwlId == old(nextMwlId) && nextMppsId == old(nextMppsId)
      {
        assert rows[i..][1..] == rows[i + 1..];
        if SqlEquals(mpps[i].sopInstanceUid, uid) {
          affected := affected + 1;
        }
        mpps := mpps[i := UpdateRow(mpps[i], uid, status, blob, now)];
        i := i + 1;
      }
      assert mpps == UpdateStatus(rows, uid, status, blob, now);
      UpdateStatusIds(rows, uid, status, blob, now);
    }

    /** `SELECT id FROM mwl WHERE AccessionNumber = %s AND completed = 0`, first row. */
    method SelectPendingId(acc: Value) returns (id: Option<nat>)
      ensures id == (match FirstPendingWithAccession(mwl, acc)
                     case Some(i) => Some(mwl[i].id)
                     case None => None)
    {
      var i := 0;
      while i < |mwl|
        invariant 0 <= i <= |mwl|
        invariant forall j :: 0 <= j < i ==> mwl[j].completed || !SqlEquals(mwl[j].accessionNumber, acc)
      {
        if !mwl[i].completed && SqlEquals(mwl[i].accessionNumber, acc) {
          return Some(mwl[i].id);
        }
        i := i + 1;
      }
      return None;
    }

    /** `SELECT AccessionNumber FROM mpps WHERE sop_instance_uid = %s`, first row. */
    method SelectAccessionForUid(uid: Value) returns (acc: Option<Value>)
      ensures acc == AccessionForUid(mpps, uid)
    {
      var i := 0;
      while i < |mpps|
        invariant 0 <= i <= |mpps|
        invariant AccessionForUid(mpps, uid) == AccessionForUid(mpps[i..], uid)
      {
        assert mpps[i..][1..] == mpps[i + 1..];
        if SqlEquals(mpps[i].sopInstanceUid, uid) {
          return Some(mpps[i].accessionNumber);
        }
        i := i + 1;
      }
      return None;
    }

    /** Rollback: the state as it was when the transaction began. */
    method Restore(rows: seq<MwlRow>, steps: seq<MppsRow>, nextMwl: nat, nextMpps: nat)
      requires IdsIncreasing(MwlIds(rows), nextMwl) && IdsIncreasing(MppsIds(steps), nextMpps)
      modifies this
      ensures Valid()
      ensures mwl == rows && mpps == steps && nextMwlId == nextMwl && nextMppsId == nextMpps
    {
      mwl, mpps, nextMwlId, nextMppsId := rows, steps, nextMwl, nextMpps;
    }
  }
}
