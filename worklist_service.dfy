/**
 * The Modality Worklist C-FIND and Modality Performed Procedure Step
 * N-CREATE/N-SET service (DICOM PS3.4 Annex K and Annex F) over the
 * worklist database. Each handler is one atomic step on a `Datastore`:
 * it returns a status code with an optional dataset, and a failure anywhere
 * before the commit leaves both tables as they were. Exceptions raised by
 * the database driver or the byte codec are the `fault` parameter; the
 * clock is the `now` parameter.
 */
module WorklistService {
  import opened Wrappers
  import opened DicomData
  import opened Store

  const StatusPending: nat := 0xFF00
  const StatusSuccess: nat := 0x0000
  const StatusProcessingFailure: nat := 0xC000
  const StatusNoSuchObject: nat := 0xC001

  /** What a handler hands back to the DIMSE layer: a status and an optional dataset. */
  datatype Response = Response(status: nat, dataset: Option<Dataset>)

  const Failure := Response(StatusProcessingFailure, None)

  // ---------------------------------------------------------------------
  // C-FIND

  /** A query element constrains the match when it lies outside the command
      group and its value is not `None`, `''` or `[]`. */
  predicate Constrains(query: Dataset, e: Element) {
    !e.command && !IsUniversal(Lookup(query, e.keyword))
  }

  /** `matches_query`: the query elements are checked in order and the first
      constraining key whose value differs in the candidate rejects it. */
  predicate MatchesQuery(candidate: Dataset, query: Dataset) {
    MatchesFrom(candidate, query, 0)
  }

  predicate MatchesFrom(candidate: Dataset, query: Dataset, i: nat)
    requires i <= |query.elems|
    decreases |query.elems| - i
  {
    i == |query.elems|
    || ((!Constrains(query, query.elems[i])
         || Lookup(candidate, query.elems[i].keyword) == Lookup(query, query.elems[i].keyword))
        && MatchesFrom(candidate, query, i + 1))
  }

  /** The candidate matches exactly when every constraining query key has
      the same value in it; an attribute the candidate lacks reads as `None`. */
  lemma MatchesQueryAll(candidate: Dataset, query: Dataset)
    ensures MatchesQuery(candidate, query) <==>
      forall i :: 0 <= i < |query.elems| && Constrains(query, query.elems[i]) ==>
        Lookup(candidate, query.elems[i].keyword) == Lookup(query, query.elems[i].keyword)
  {
    MatchesFromAll(candidate, query, 0);
  }

  lemma {:induction false} MatchesFromAll(candidate: Dataset, query: Dataset, from: nat)
    requires from <= |query.elems|
    decreases |query.elems| - from
    ensures MatchesFrom(candidate, query, from) <==>
      forall i :: from <= i < |query.elems| && Constrains(query, query.elems[i]) ==>
        Lookup(candidate, query.elems[i].keyword) == Lookup(query, query.elems[i].keyword)
  {
    if from < |query.elems| {
      MatchesFromAll(candidate, query, from + 1);
    }
  }

  /** A candidate that lacks a constrained attribute does not match. */
  lemma MissingAttributeMismatches(candidate: Dataset, query: Dataset, i: nat)
    requires i < |query.elems| && Constrains(query, query.elems[i])
    requires !Has(candidate, query.elems[i].keyword)
    ensures !MatchesQuery(candidate, query)
  {
    MatchesQueryAll(candidate, query);
    assert Lookup(candidate, query.elems[i].keyword) == Null;
  }

  /** For a query with unique keywords, matching is equality on every element
      outside the command group whose own value is not universal. */
  lemma {:induction false} MatchesWellFormedQuery(candidate: Dataset, query: Dataset)
    requires WellFormed(query)
    ensures MatchesQuery(candidate, query) <==>
      forall i :: 0 <= i < |query.elems| && !query.elems[i].command && query.elems[i].keyword != ""
                  && !IsUniversal(query.elems[i].value) ==>
        Lookup(candidate, query.elems[i].keyword) == query.elems[i].value
  {
    MatchesQueryAll(candidate, query);
    forall i | 0 <= i < |query.elems| && query.elems[i].keyword != ""
      ensures Lookup(query, query.elems[i].keyword) == query.elems[i].value
    {
      LookupMember(query, i);
    }
    forall i | 0 <= i < |query.elems| && query.elems[i].keyword == ""
      ensures !Constrains(query, query.elems[i])
    {
      assert IndexOfKeyword(query, "") == None;
    }
  }

  /** The responses the C-FIND generator yields for the pending rows it
      fetched: one pending response per matching row, in row order, up to
      the first blob that does not decode (the exception ends the stream). */
  function Stream(rows: seq<MwlRow>, query: Dataset): (r: seq<Response>)
    ensures |r| <= |rows|
  {
    if rows == [] then []
    else match Decode(rows[0].dataset)
      case None => []
      case Some(ds) => Answer(ds, query) + Stream(rows[1..], query)
  }

  /** The answer for one decoded worklist dataset. */
  function Answer(ds: Dataset, query: Dataset): seq<Response> {
    if MatchesQuery(ds, query) then [Response(StatusPending, Some(ds))] else []
  }

  /** `handle_mwl`: the C-FIND handler. `available` is false when the
      database cannot be reached or the query fails; the generator then
      yields nothing. It only reads the tables. */
  method HandleMwl(db: Datastore, query: Dataset, available: bool) returns (responses: seq<Response>)
    ensures responses == (if available then Stream(Pending(db.mwl), query) else [])
  {
    if !available {
      return [];
    }
    var rows := Pending(db.mwl);
    responses := AnswerRows(rows, query);
  }

  /** The generator's loop over the fetched rows, counting the matches it yields. */
  method AnswerRows(rows: seq<MwlRow>, query: Dataset) returns (responses: seq<Response>)
    ensures responses == Stream(rows, query)
  {
    responses := [];
    var matchCount := 0;
    var i := 0;
    assert rows[i..] == rows;
    while i < |rows|
      invariant 0 <= i <= |rows|
      invariant responses + Stream(rows[i..], query) == Stream(rows, query)
      invariant matchCount == |responses|
    {
      match Decode(rows[i].dataset) {
        case None =>
          StreamEnds(rows, i, query, responses);
          return;
        case Some(ds) =>
          StreamNext(rows, i, query, responses, ds);
          ghost var before := responses;
          if MatchesQuery(ds, query) {
            responses := responses + [Response(StatusPending, Some(ds))];
            matchCount := matchCount + 1;
          }
          assert responses == before + Answer(ds, query);
      }
      i := i + 1;
    }
    assert rows[i..] == [];
  }

  lemma StreamEnds(rows: seq<MwlRow>, i: nat, query: Dataset, done: seq<Response>)
    requires i < |rows| && Decode(rows[i].dataset).None?
    requires done + Stream(rows[i..], query) == Stream(rows, query)
    ensures done == Stream(rows, query)
  {
    StreamAt(rows, i, query);
  }

  lemma StreamNext(rows: seq<MwlRow>, i: nat, query: Dataset, done: seq<Response>, ds: Dataset)
    requires i < |rows| && Decode(rows[i].dataset) == Some(ds)
    requires done + Stream(rows[i..], query) == Stream(rows, query)
    ensures (done + Answer(ds, query)) + Stream(rows[i + 1..], query) == Stream(rows, query)
  {
    StreamAt(rows, i, query);
    assert done + (Answer(ds, query) + Stream(rows[i + 1..], query))
        == (done + Answer(ds, query)) + Stream(rows[i + 1..], query);
  }

  lemma StreamAt(rows: seq<MwlRow>, i: nat, query: Dataset)
    requires i < |rows|
    ensures Stream(rows[i..], query) ==
      match Decode(rows[i].dataset)
      case None => []
      case Some(ds) => Answer(ds, query) + Stream(rows[i + 1..], query)
  {
    assert rows[i..][1..] == rows[i + 1..];
  }

  /** Every response is pending and carries a matching dataset decoded from
      one of the rows. */
  lemma {:induction false} StreamSound(rows: seq<MwlRow>, query: Dataset)
    ensures forall k :: 0 <= k < |Stream(rows, query)| ==>
      var resp := Stream(rows, query)[k];
      resp.status == StatusPending && resp.dataset.Some?
      && MatchesQuery(resp.dataset.value, query)
      && exists row :: row in rows && Decode(row.dataset) == resp.dataset
  {
    if rows != [] && Decode(rows[0].dataset).Some? {
      var tail := Stream(rows[1..], query);
      StreamSound(rows[1..], query);
      var head := Answer(Decode(rows[0].dataset).value, query);
      assert Stream(rows, query) == head + tail;
      forall k | 0 <= k < |head| + |tail|
        ensures var resp: Response := (head + tail)[k];
          resp.status == StatusPending && resp.dataset.Some?
          && MatchesQuery(resp.dataset.value, query)
          && exists row :: row in rows && Decode(row.dataset) == resp.dataset
      {
        if k < |head| {
          assert (head + tail)[k] == head[k];
          assert Decode(rows[0].dataset) == head[k].dataset;
        } else {
          assert (head + tail)[k] == tail[k - |head|];
          var row :| row in rows[1..] && Decode(row.dataset) == tail[k - |head|].dataset;
          assert row in rows;
        }
      }
    }
  }

  predicate AllReadable(rows: seq<MwlRow>) {
    forall row :: row in rows ==> Decode(row.dataset).Some?
  }

  /** Over readable rows the stream is the concatenation of each row's own
      contribution, so responses follow row order. */
  lemma {:induction false} StreamAppend(a: seq<MwlRow>, b: seq<MwlRow>, query: Dataset)
    requires AllReadable(a)
    ensures Stream(a + b, query) == Stream(a, query) + Stream(b, query)
  {
    if a != [] {
      var ds := Decode(a[0].dataset).value;
      StreamAppend(a[1..], b, query);
      StreamHead(a, b, query, ds);
    } else {
      assert a + b == b;
    }
  }

  lemma StreamHead(a: seq<MwlRow>, b: seq<MwlRow>, query: Dataset, ds: Dataset)
    requires a != [] && Decode(a[0].dataset) == Some(ds)
    ensures Stream(a + b, query) == Answer(ds, query) + Stream(a[1..] + b, query)
    ensures Stream(a, query) == Answer(ds, query) + Stream(a[1..], query)
  {
    assert (a + b)[0] == a[0] && (a + b)[1..] == a[1..] + b;
  }

  /** One readable row contributes a pending response exactly when it matches. */
  lemma StreamOne(row: MwlRow, query: Dataset)
    requires Decode(row.dataset).Some?
    ensures Stream([row], query) ==
      if MatchesQuery(Decode(row.dataset).value, query)
      then [Response(StatusPending, Decode(row.dataset))] else []
  {
    assert [row][1..] == [];
  }

  /** A row whose blob does not decode ends the stream: rows after it are
      never examined. */
  lemma StreamStops(a: seq<MwlRow>, bad: MwlRow, b: seq<MwlRow>, query: Dataset)
    requires AllReadable(a) && Decode(bad.dataset).None?
    ensures Stream(a + [bad] + b, query) == Stream(a, query)
  {
    StreamAppend(a, [bad] + b, query);
    assert a + [bad] + b == a + ([bad] + b);
  }

  /** Once the rows of an accession number are marked completed, no C-FIND
      answer comes from them: every response stems from a row that was
      pending and has a different accession number. */
  lemma CompletedNotFound(mwl: seq<MwlRow>, acc: Value, query: Dataset)
    ensures forall k :: 0 <= k < |Stream(Pending(MarkCompleted(mwl, acc)), query)| ==>
      exists row :: row in Pending(MarkCompleted(mwl, acc)) && !SqlEquals(row.accessionNumber, acc)
                    && Decode(row.dataset) == Stream(Pending(MarkCompleted(mwl, acc)), query)[k].dataset
  {
    StreamSound(Pending(MarkCompleted(mwl, acc)), query);
    NoPendingAfterMarkCompleted(mwl, acc);
  }

  // ---------------------------------------------------------------------
  // Status text

  /** The DICOM Performed Procedure Step Status values and their database spelling. */
  const StatusMapping: map<string, string> :=
    map["IN PROGRESS" := "IN_PROGRESS", "COMPLETED" := "COMPLETED", "DISCONTINUED" := "DISCONTINUED"]

  /** A value Python can use as a dict key: lists (multi-valued elements
      and sequences) raise TypeError. */
  predicate Hashable(v: Value) {
    !v.Multi? && !v.Sq?
  }

  /** The N-CREATE status: a known value is mapped, anything else becomes
      IN_PROGRESS; `None` stands for the TypeError an unhashable value raises. */
  function CreateStatus(raw: Value): (r: Option<string>)
    ensures r.None? <==> !Hashable(raw)
    ensures r.Some? ==> r.value in StatusMapping.Values
    ensures r == Some("COMPLETED") <==> raw == Str("COMPLETED")
    ensures r == Some("DISCONTINUED") <==> raw == Str("DISCONTINUED")
    ensures r == Some("IN_PROGRESS") <==> Hashable(raw) && raw != Str("COMPLETED") && raw != Str("DISCONTINUED")
  {
    assert StatusMapping.Keys == {"IN PROGRESS", "COMPLETED", "DISCONTINUED"};
    assert StatusMapping["IN PROGRESS"] == "IN_PROGRESS";
    if !Hashable(raw) then None
    else if raw.Str? && raw.s in StatusMapping then Some(StatusMapping[raw.s])
    else Some("IN_PROGRESS")
  }

  /** The N-SET status: a falsy value is written as NULL, a known value is
      mapped and any other value passes through; `None` stands for the
      TypeError an unhashable value raises. */
  function SetStatus(raw: Value): (r: Option<Value>)
    ensures !Truthy(raw) ==> r == Some(Null)
    ensures r.None? <==> Truthy(raw) && !Hashable(raw)
    ensures Truthy(raw) && Hashable(raw) && raw != Str("IN PROGRESS") ==> r == Some(raw)
    ensures raw == Str("IN PROGRESS") ==> r == Some(Str("IN_PROGRESS"))
  {
    assert StatusMapping.Keys == {"IN PROGRESS", "COMPLETED", "DISCONTINUED"};
    if !Truthy(raw) then Some(Null)
    else if !Hashable(raw) then None
    else if raw.Str? && raw.s in StatusMapping then Some(Str(StatusMapping[raw.s]))
    else Some(raw)
  }

  /** The statuses that end a procedure step. */
  predicate IsTerminal(status: Value) {
    status == Str("COMPLETED") || status == Str("DISCONTINUED")
  }

  /** A step is terminal after N-SET exactly when the request said COMPLETED
      or DISCONTINUED. */
  lemma SetStatusTerminal(raw: Value)
    requires SetStatus(raw).Some?
    ensures IsTerminal(SetStatus(raw).value) <==> raw == Str("COMPLETED") || raw == Str("DISCONTINUED")
  {
  }

  // ---------------------------------------------------------------------
  // N-CREATE

  /** The worklist entry an N-CREATE links to: the first pending row with the
      same accession number, looked up only for a non-empty accession number. */
  function LinkedWorklist(mwl: seq<MwlRow>, acc: Value): (r: Option<nat>)
    ensures r.Some? <==>
      Truthy(acc) && exists i :: 0 <= i < |mwl| && !mwl[i].completed && SqlEquals(mwl[i].accessionNumber, acc)
    ensures r.Some? ==> r.value == mwl[FirstPendingWithAccession(mwl, acc).value].id
  {
    if !Truthy(acc) then None
    else match FirstPendingWithAccession(mwl, acc)
      case Some(i) => Some(mwl[i].id)
      case None => None
  }

  /** The row N-CREATE inserts (its id is assigned by the table). */
  function NewStep(sopUid: Value, mwlId: Option<nat>, ds: Dataset, status: string): MppsRow {
    MppsRow(
      id := 0,
      sopInstanceUid := sopUid,
      mwlId := mwlId,
      accessionNumber := Lookup(ds, "AccessionNumber"),
      studyInstanceUid := Lookup(ds, "StudyInstanceUID"),
      patientId := Lookup(ds, "PatientID"),
      status := Str(status),
      performedProcedureStepId := Lookup(ds, "PerformedProcedureStepID"),
      performedStationAeTitle := Lookup(ds, "PerformedStationAETitle"),
      datasetBlob := Encode(ds),
      completedAt := None)
  }

  /** `handle_n_create`: records a started procedure step. On success exactly
      one row is appended to `mpps` and `mwl` is untouched; on any failure
      neither table changes. */
  method HandleNCreate(db: Datastore, sopUid: Value, dataset: Dataset, fault: bool) returns (resp: Response)
    requires db.Valid()
    modifies db
    ensures db.Valid()
    ensures db.mwl == old(db.mwl) && db.nextMwlId == old(db.nextMwlId)
    ensures var status := CreateStatus(GetAttr(dataset, "PerformedProcedureStepStatus", Str("IN PROGRESS")));
      if fault || status.None? then
        resp == Failure && db.mpps == old(db.mpps) && db.nextMppsId == old(db.nextMppsId)
      else
        var link := LinkedWorklist(old(db.mwl), Lookup(dataset, "AccessionNumber"));
        resp == Response(StatusSuccess, Some(dataset))
        && db.mpps == old(db.mpps) + [NewStep(sopUid, link, dataset, status.value).(id := old(db.nextMppsId))]
        && db.nextMppsId == old(db.nextMppsId) + 1
  {
    var acc := Lookup(dataset, "AccessionNumber");
    var status := CreateStatus(GetAttr(dataset, "PerformedProcedureStepStatus", Str("IN PROGRESS")));
    if status.None? {
      return Failure;
    }
    var mwlId: Option<nat> := None;
    if Truthy(acc) {
      mwlId := db.SelectPendingId(acc);
    }
    ghost var link := LinkedWorklist(db.mwl, acc);
    assert mwlId == link;
    var steps, nextMpps := db.mpps, db.nextMppsId;
    var _ := db.InsertMpps(NewStep(sopUid, mwlId, dataset, status.value));
    if fault {
      db.Restore(db.mwl, steps, db.nextMwlId, nextMpps);
      return Failure;
    }
    return Response(StatusSuccess, Some(dataset));
  }

  // ---------------------------------------------------------------------
  // N-SET

  /** The SOP Instance UID of an N-SET: the request's, or, when the request
      has none and the modification list is non-empty, the list's own. */
  function ResolveUid(requestUid: Value, modList: Dataset): (r: Value)
    ensures requestUid != Null ==> r == requestUid
    ensures requestUid == Null && !NonEmpty(modList) ==> r == Null
    ensures requestUid == Null && NonEmpty(modList) ==> r == Lookup(modList, "SOPInstanceUID")
  {
    if requestUid == Null && NonEmpty(modList) then Lookup(modList, "SOPInstanceUID") else requestUid
  }

  /** The cascade: every worklist row with the step's non-empty accession
      number is marked completed. */
  function Cascade(mwl: seq<MwlRow>, acc: Option<Value>): seq<MwlRow> {
    if acc.Some? && Truthy(acc.value) then MarkCompleted(mwl, acc.value) else mwl
  }

  /** The cascade changes nothing but `completed` flags, and only raises them. */
  lemma CascadeOnlyCompletes(mwl: seq<MwlRow>, acc: Option<Value>)
    ensures |Cascade(mwl, acc)| == |mwl|
    ensures forall i :: 0 <= i < |mwl| ==>
      Cascade(mwl, acc)[i] == mwl[i].(completed := Cascade(mwl, acc)[i].completed)
      && (mwl[i].completed ==> Cascade(mwl, acc)[i].completed)
    ensures forall i :: 0 <= i < |mwl| ==>
      (Cascade(mwl, acc)[i].completed <==>
         mwl[i].completed || (acc.Some? && Truthy(acc.value) && SqlEquals(mwl[i].accessionNumber, acc.value)))
  {
  }

  /** The `mpps` table after the update of an N-SET. */
  function StepsAfterSet(mpps: seq<MppsRow>, uid: Value, status: Value, modList: Dataset, now: Timestamp): seq<MppsRow> {
    UpdateStatus(mpps, uid, status, if NonEmpty(modList) then Some(Encode(modList)) else None, now)
  }

  /** The `mwl` table after an N-SET: the cascade runs only when the update
      matched a row and the new status is terminal. */
  function WorklistAfterSet(mwl: seq<MwlRow>, mpps: seq<MppsRow>, uid: Value, status: Value): seq<MwlRow> {
    if CountUid(mpps, uid) > 0 && IsTerminal(status) then Cascade(mwl, AccessionForUid(mpps, uid)) else mwl
  }

  /** `handle_n_set`: updates the procedure step, cascades completion to the
      worklist and commits once at the end. */
  method HandleNSet(db: Datastore, requestUid: Value, modList: Dataset, now: Timestamp, fault: bool)
    returns (resp: Response)
    requires db.Valid()
    modifies db
    ensures db.Valid()
    ensures db.nextMwlId == old(db.nextMwlId) && db.nextMppsId == old(db.nextMppsId)
    ensures var uid := ResolveUid(requestUid, modList);
      var status := SetStatus(Lookup(modList, "PerformedProcedureStepStatus"));
      if uid == Null || status.None? || fault then
        resp == Failure && db.mwl == old(db.mwl) && db.mpps == old(db.mpps)
      else
        db.mpps == StepsAfterSet(old(db.mpps), uid, status.value, modList, now)
        && db.mwl == WorklistAfterSet(old(db.mwl), old(db.mpps), uid, status.value)
        && resp == (if CountUid(old(db.mpps), uid) > 0 then Response(StatusSuccess, Some(modList))
                    else Response(StatusNoSuchObject, None))
  {
    var uid := ResolveUid(requestUid, modList);
    if uid == Null {
      return Failure;
    }
    var status := SetStatus(Lookup(modList, "PerformedProcedureStepStatus"));
    if status.None? {
      return Failure;
    }
    var rows, steps, nextMwl, nextMpps := db.mwl, db.mpps, db.nextMwlId, db.nextMppsId;
    var blob := if NonEmpty(modList) then Some(Encode(modList)) else None;
    var affected := db.SetStatus(uid, status.value, blob, now);
    if IsTerminal(status.value) && affected > 0 {
      var acc := db.SelectAccessionForUid(uid);
      AccessionForUidAfterUpdate(steps, uid, uid, status.value, blob, now);
      if acc.Some? && Truthy(acc.value) {
        var _ := db.SetCompleted(acc.value);
      }
    }
    if fault {
      db.Restore(rows, steps, nextMwl, nextMpps);
      return Failure;
    }
    if affected > 0 {
      return Response(StatusSuccess, Some(modList));
    }
    return Response(StatusNoSuchObject, None);
  }

  /** An N-SET for an unknown UID changes no table. */
  lemma UnknownStepUnchanged(mwl: seq<MwlRow>, mpps: seq<MppsRow>, uid: Value, status: Value, modList: Dataset, now: Timestamp)
    requires CountUid(mpps, uid) == 0
    ensures StepsAfterSet(mpps, uid, status, modList, now) == mpps
    ensures WorklistAfterSet(mwl, mpps, uid, status) == mwl
  {
    UpdateStatusNoMatch(mpps, uid, status, if NonEmpty(modList) then Some(Encode(modList)) else None, now);
  }

  /** Every N-SET stamps each updated step with the status (NULL included)
      and the time, and leaves other steps alone. */
  lemma StepsAfterSetRows(mpps: seq<MppsRow>, uid: Value, status: Value, modList: Dataset, now: Timestamp)
    ensures |StepsAfterSet(mpps, uid, status, modList, now)| == |mpps|
    ensures forall i :: 0 <= i < |mpps| ==>
      var row := StepsAfterSet(mpps, uid, status, modList, now)[i];
      if SqlEquals(mpps[i].sopInstanceUid, uid) then
        row.status == status && row.completedAt == Some(now)
        && row.datasetBlob == (if NonEmpty(modList) then Encode(modList) else mpps[i].datasetBlob)
        && row.(status := mpps[i].status, completedAt := mpps[i].completedAt, datasetBlob := mpps[i].datasetBlob) == mpps[i]
      else row == mpps[i]
  {
  }

  // ---------------------------------------------------------------------
  // A procedure step from start to end

  /** A modality starts a step for a scheduled procedure and then completes
      it: both requests succeed, the step is linked to the worklist entry, and
      the entry is no longer offered by C-FIND. The worklist holds at most
      one pending entry for the accession number, and the UID is new, so
      neither select leaves a row unread. */
  method StartThenComplete(db: Datastore, uid: string, acc: string, started: Dataset, finished: Dataset, now: Timestamp)
    returns (created: Response, updated: Response)
    requires db.Valid()
    requires acc != "" && uid != ""
    requires Lookup(started, "AccessionNumber") == Str(acc)
    requires Lookup(started, "PerformedProcedureStepStatus") == Str("IN PROGRESS")
    requires Lookup(finished, "PerformedProcedureStepStatus") == Str("COMPLETED")
    requires forall i :: 0 <= i < |db.mpps| ==> db.mpps[i].sopInstanceUid != Str(uid)
    requires AtMostOnePending(db.mwl, Str(acc))
    modifies db
    ensures created.status == StatusSuccess && updated.status == StatusSuccess
    ensures |db.mpps| == |old(db.mpps)| + 1
    ensures db.mpps[|db.mpps| - 1].mwlId == LinkedWorklist(old(db.mwl), Str(acc))
    ensures db.mpps[|db.mpps| - 1].status == Str("COMPLETED")
    ensures forall row :: row in Pending(db.mwl) ==> !SqlEquals(row.accessionNumber, Str(acc))
  {
    assert GetAttr(started, "PerformedProcedureStepStatus", Str("IN PROGRESS")) == Str("IN PROGRESS");
    created := HandleNCreate(db, Str(uid), started, false);
    ghost var steps := db.mpps;
    assert steps[|steps| - 1].sopInstanceUid == Str(uid);
    assert CountUid(steps, Str(uid)) > 0 by {
      CountUidZero(steps, Str(uid));
    }
    assert AccessionForUid(steps, Str(uid)) == Some(Str(acc)) by {
      AccessionOfNewStep(old(db.mpps), steps[|steps| - 1], Str(uid));
    }
    updated := HandleNSet(db, Str(uid), finished, now, false);
    NoPendingAfterMarkCompleted(old(db.mwl), Str(acc));
  }

  /** The accession number found for a UID that only the newest step carries
      is that step's. */
  lemma {:induction false} AccessionOfNewStep(mpps: seq<MppsRow>, step: MppsRow, uid: Value)
    requires forall i :: 0 <= i < |mpps| ==> !SqlEquals(mpps[i].sopInstanceUid, uid)
    requires SqlEquals(step.sopInstanceUid, uid)
    ensures AccessionForUid(mpps + [step], uid) == Some(step.accessionNumber)
  {
    if mpps != [] {
      assert (mpps + [step])[1..] == mpps[1..] + [step];
      AccessionOfNewStep(mpps[1..], step, uid);
    }
  }
}
