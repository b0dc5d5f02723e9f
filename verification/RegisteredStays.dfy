/** What becomes of each row of a confirmed roster, told from the stored row alone, and when
    a roster is confirmed at all. */
module RegisteredStays {
  import opened Wrappers
  import opened RosterPreview
  import opened RosterConflicts
  import opened RosterValidation
  import opened RosterConfirmation
  import Bookings
  import CleaningTasks
  import TaskWrites = CleaningTaskWrites
  import Text

  // ---------------------------------------------------------------- the data that validation keeps

  /** The calendar day in Seoul of a moment. */
  predicate IsDay(date: Option<DateText>, at: Option<int>) {
    && at.Some? && date.Some? && date.value.Day?
    && date.value.day * 86_400_000 <= at.value + 32_400_000 < (date.value.day + 1) * 86_400_000
  }

  predicate SameInstant(was: Option<Timestamp>, now: Option<Timestamp>) {
    was.Some? && now.Some? && Parse(was.value).Some? && Parse(now.value) == Parse(was.value) && now.value.Iso?
  }

  /** The same guest and the same times, now in canonical form. */
  predicate SameData(was: Normalized, now: Normalized) {
    && now.guestName == was.guestName && now.company == was.company && now.department == was.department
    && now.phone == was.phone && now.notes == was.notes
    && SameInstant(was.checkInAt, now.checkInAt) && SameInstant(was.checkOutAt, now.checkOutAt)
    && IsDay(now.checkInDate, Parse(now.checkInAt.value)) && IsDay(now.checkOutDate, Parse(now.checkOutAt.value))
  }

  lemma CanonicalKeeps(d: Normalized)
    requires d.checkInAt.Some? && Strict(d.checkInAt.value) && d.checkOutAt.Some? && Strict(d.checkOutAt.value)
    ensures SameData(d, Canonical(d))
  {
  }

  lemma ConfirmableKeeps(stored: seq<ImportRow>, properties: map<string, bool>, stays: seq<Stay>, k: nat)
    requires k < |stored| && Confirmable(stored, properties, stays, k)
    ensures var d := stored[k].data;
            && d.Some? && d.value.checkInAt.Some? && Strict(d.value.checkInAt.value)
            && d.value.checkOutAt.Some? && Strict(d.value.checkOutAt.value) && SameData(d.value, Canonical(d.value))
  {
    CanonicalKeeps(stored[k].data.value);
  }

  lemma ReviewKeeps(row: ImportRow, properties: map<string, bool>)
    ensures var reviewed := Reviewed(Prepared(row), properties);
            reviewed.id == row.id && reviewed.action == row.action && reviewed.propertyId == row.propertyId
  {
  }

  lemma OutcomeKeeps(was: seq<PreviewRow>, row: PreviewRow, stays: seq<ConflictStay>, k: nat)
    requires k < |was| && Outcome(was, row, stays, k)
    ensures row.id == was[k].id && row.action == was[k].action && row.propertyId == was[k].propertyId
  {
  }

  /** A validated row keeps its id, its house, its action and its data. */
  lemma ValidatedKeeps(rows: seq<ImportRow>, db: Database, previews: seq<PreviewRow>, k: nat)
    requires ValidatedAs(rows, db, previews) && k < |rows|
    ensures previews[k].id == rows[k].id && previews[k].action == rows[k].action
    ensures previews[k].propertyId == rows[k].propertyId
    ensures rows[k].action == RowAction.Create && previews[k].status == Valid ==>
              previews[k].data.Some? && rows[k].data.Some? && SameData(rows[k].data.value, previews[k].data.value)
  {
    var reviewed := ReviewedAll(rows, db.properties);
    assert RowValidated(rows, db, previews[k], k);
    ReviewKeeps(rows[k], db.properties);
    OutcomeKeeps(reviewed, previews[k], Window(reviewed, db.stays), k);
    if rows[k].action == RowAction.Create && previews[k].status == Valid {
      OutcomeValid(rows, db.properties, db.stays, k, previews[k]);
      ConfirmableKeeps(rows, db.properties, db.stays, k);
    }
  }

  // ---------------------------------------------------------------- rows become stays

  /** The stored row became this stay, recorded by this revision, and refers to it. */
  predicate Registers(row: ImportRow, done: ImportRow, stay: Stay, revision: Revision, actor: string, now: int) {
    && HoldsRow(stay, row.propertyId, row.data)
    && revision.stayId == stay.id && revision.version == 1 && revision.snapshot == stay
    && revision.actor == actor && revision.createdAt == now && revision.importRowId == Some(row.id)
    && done.id == row.id && done.action == RowAction.Create && done.status == Valid
    && done.stayId == Some(stay.id) && done.appliedAt == Some(now) && done.afterSnapshot == Some(stay)
    && done.propertyId == row.propertyId
    && row.data.Some? && done.data.Some? && SameData(row.data.value, done.data.value)
  }

  /** A row that is skipped refers to nothing. */
  predicate Skips(row: ImportRow, done: ImportRow) {
    && done.id == row.id && done.action == Skip && done.stayId.None? && done.appliedAt.None?
    && done.afterSnapshot.None?
  }

  /** The k-th row of the roster is the p-th one to be registered. */
  predicate RegistersAs(rows: seq<ImportRow>, db: Database, after: Database, req: Request, k: nat, p: nat) {
    && k < |rows| && req.batchId in after.batches && |after.batches[req.batchId].rows| == |rows|
    && |db.stays| + p < |after.stays| && |db.revisions| + p < |after.revisions| && p < |req.ids|
    && req.administrator.Some? && after.stays[|db.stays| + p].id == req.ids[p]
    && Registers(rows[k], after.batches[req.batchId].rows[k], after.stays[|db.stays| + p],
                 after.revisions[|db.revisions| + p], req.administrator.value, req.now)
  }

  lemma HeldByStored(preview: PreviewRow, row: ImportRow, stay: Stay)
    requires HoldsRow(stay, preview.propertyId, preview.data) && preview.propertyId == row.propertyId
    requires row.data.Some? && SameData(row.data.value, preview.data.value)
    ensures HoldsRow(stay, row.propertyId, row.data)
  {
  }

  lemma FinalRow(db: Database, req: Request, previews: seq<PreviewRow>, after: Database, k: nat)
    requires Succeeds(db, req, previews, after) && BatchSound(db.batches[req.batchId]) && k < |previews|
    ensures req.batchId in after.batches && |after.batches[req.batchId].rows| == |previews|
    ensures RowConfirmed(after.batches[req.batchId].rows[k], previews[k], ApplicationOf(previews, req.ids, k), req.now)
  {
    var batch := db.batches[req.batchId];
    AcceptedBatch(db, batch, req.expectedVersion);
    ConfirmedEntry(db, req, previews, after);
    RowBecomes(batch.rows, previews, req.ids, req.now, k);
  }

  lemma AppliedRowRegisters(db: Database, req: Request, previews: seq<PreviewRow>, after: Database, k: nat)
    requires Succeeds(db, req, previews, after) && BatchSound(db.batches[req.batchId])
    requires k < |previews| && previews[k].action != Skip
    ensures RegistersAs(db.batches[req.batchId].rows, db, after, req, k, Place(previews, k))
  {
    var rows, p := db.batches[req.batchId].rows, Place(previews, k);
    FinalRow(db, req, previews, after, k);
    PlaceIsOrigin(previews, k);
    ValidatedKeeps(rows, db, previews, k);
    ConfirmAddsStays(db, req, previews, after);
    assert IsReady(Creating(previews)[p]);
    assert StayAdded(previews, p, req.ids[p], req.administrator.value, req.now, after.stays[|db.stays| + p],
                     after.revisions[|db.revisions| + p]);
    HeldByStored(previews[k], rows[k], after.stays[|db.stays| + p]);
  }

  /** A confirmation that turns a preview into stays registers every row to create, each as
      a stay of its own with what the stored row says, and no other row. */
  lemma ConfirmRegisters(db: Database, req: Request, previews: seq<PreviewRow>, r: Result<Receipt, ConfirmError>,
                         after: Database, k: nat)
    requires Confirms(db, req, previews, r, after) && r.Ok? && req.batchId in db.batches
    requires db.batches[req.batchId].status == Preview && BatchSound(db.batches[req.batchId])
    requires k < |db.batches[req.batchId].rows|
    ensures var rows := db.batches[req.batchId].rows;
            && (rows[k].action == RowAction.Create ==> exists p :: RegistersAs(rows, db, after, req, k, p))
            && (rows[k].action != RowAction.Create ==>
                  && req.batchId in after.batches && |after.batches[req.batchId].rows| == |rows|
                  && Skips(rows[k], after.batches[req.batchId].rows[k]))
  {
    var rows := db.batches[req.batchId].rows;
    SuccessMeans(db, req, previews, r, after);
    FinalRow(db, req, previews, after, k);
    ValidatedKeeps(rows, db, previews, k);
    if previews[k].action != Skip {
      AppliedRowRegisters(db, req, previews, after, k);
      assert RegistersAs(rows, db, after, req, k, Place(previews, k));
    } else {
      assert ApplicationOf(previews, req.ids, k).None?;
    }
  }

  /** How many of these rows are to be registered. */
  function ToCreate(rows: seq<ImportRow>): nat {
    if rows == [] then 0 else ToCreate(rows[..|rows| - 1]) + if rows[|rows| - 1].action == Skip then 0 else 1
  }

  lemma {:induction false} CreatingIsToCreate(rows: seq<ImportRow>, previews: seq<PreviewRow>)
    requires |rows| == |previews| && forall k :: 0 <= k < |rows| ==> previews[k].action == rows[k].action
    ensures |Creating(previews)| == ToCreate(rows)
  {
    if rows != [] {
      CreatingIsToCreate(rows[..|rows| - 1], previews[..|rows| - 1]);
    }
  }

  /** The batch is confirmed a version later, by whom and when the answer says; nothing but
      the new stays and revisions is added, and no other batch changes. */
  lemma ConfirmWrites(db: Database, req: Request, previews: seq<PreviewRow>, r: Result<Receipt, ConfirmError>,
                      after: Database)
    requires Confirms(db, req, previews, r, after) && r.Ok? && req.batchId in db.batches
    requires db.batches[req.batchId].status == Preview
    ensures req.administrator.Some? && req.batchId in after.batches
    ensures var was, batch := db.batches[req.batchId], after.batches[req.batchId];
            var n := ToCreate(was.rows);
            && batch.status == Confirmed && batch.version == was.version + 1 && was.version == req.expectedVersion
            && batch.confirmedAt == Some(req.now) && batch.confirmedBy == req.administrator
            && batch.supported == was.supported && |batch.rows| == |was.rows|
            && r.value.version == batch.version && r.value.confirmedAt == req.now
            && Some(r.value.confirmedBy) == req.administrator
            && r.value.created == n && r.value.skipped == |was.rows| - n
            && |after.stays| == |db.stays| + n && db.stays <= after.stays
            && |after.revisions| == |db.revisions| + n && db.revisions <= after.revisions
            && after.properties == db.properties && after.batches.Keys == db.batches.Keys
            && forall id :: id in db.batches && id != req.batchId ==> after.batches[id] == db.batches[id]
  {
    var rows := db.batches[req.batchId].rows;
    SuccessMeans(db, req, previews, r, after);
    AcceptedBatch(db, db.batches[req.batchId], req.expectedVersion);
    ConfirmedEntry(db, req, previews, after);
    forall k | 0 <= k < |rows| ensures previews[k].action == rows[k].action {
      ValidatedKeeps(rows, db, previews, k);
    }
    CreatingIsToCreate(rows, previews);
    ConfirmAddsStays(db, req, previews, after);
  }

  // ---------------------------------------------------------------- when a roster is confirmed

  /** A row to create is ready exactly when nothing stands in the way of registering it. */
  lemma ReadyIff(rows: seq<ImportRow>, db: Database, previews: seq<PreviewRow>, k: nat)
    requires ValidatedAs(rows, db, previews) && k < |rows| && rows[k].action == RowAction.Create
    ensures IsReady(previews[k]) <==> Confirmable(rows, db.properties, db.stays, k)
  {
    ValidatedKeeps(rows, db, previews, k);
    assert RowValidated(rows, db, previews[k], k);
    OutcomeValid(rows, db.properties, db.stays, k, previews[k]);
  }

  /** Nothing stands in the way of any row to create. */
  ghost predicate AllConfirmable(rows: seq<ImportRow>, db: Database) {
    forall k :: 0 <= k < |rows| && rows[k].action == RowAction.Create ==>
      Confirmable(rows, db.properties, db.stays, k)
  }

  lemma AllReadyIff(rows: seq<ImportRow>, db: Database, previews: seq<PreviewRow>)
    requires ValidatedAs(rows, db, previews) && forall k :: 0 <= k < |rows| ==> rows[k].action != RowAction.Update
    ensures AllReady(Creating(previews)) <==> AllConfirmable(rows, db)
  {
    var creating := Creating(previews);
    forall k | 0 <= k < |rows| && rows[k].action == RowAction.Create
      ensures Place(previews, k) < |creating| && creating[Place(previews, k)] == previews[k]
      ensures IsReady(previews[k]) <==> Confirmable(rows, db.properties, db.stays, k)
    {
      ValidatedKeeps(rows, db, previews, k);
      PlaceIsOrigin(previews, k);
      ReadyIff(rows, db, previews, k);
    }
    forall p | 0 <= p < |creating|
      ensures creating[p] == previews[Origin(previews, p)] && rows[Origin(previews, p)].action == RowAction.Create
    {
      OriginMeans(previews, p);
      ValidatedKeeps(rows, db, previews, Origin(previews, p));
    }
  }

  /** A preview of this program, untouched, as its administrator saw it and within the limits. */
  ghost predicate OpenBatch(db: Database, batch: Batch, expectedVersion: int) {
    && batch.status == Preview && batch.version == expectedVersion && batch.supported
    && |batch.rows| <= 5000 && |Window(ReviewedAll(batch.rows, db.properties), db.stays)| <= 5000
    && forall k :: 0 <= k < |batch.rows| ==>
         && batch.rows[k].action != RowAction.Update && batch.rows[k].stayId.None?
         && batch.rows[k].appliedAt.None? && batch.rows[k].expectedStayRevision.None?
         && batch.rows[k].beforeSnapshot.None? && batch.rows[k].afterSnapshot.None?
  }

  ghost predicate Open(db: Database, req: Request) {
    req.administrator.Some? && req.batchId in db.batches && OpenBatch(db, db.batches[req.batchId], req.expectedVersion)
  }

  lemma OpenIff(db: Database, batch: Batch, expectedVersion: int)
    requires batch.status == Preview
    ensures OpenBatch(db, batch, expectedVersion) <==> BatchRefusal(db, batch, expectedVersion).None?
    ensures BatchRefusal(db, batch, expectedVersion) != Some(RowsNotReady)
  {
  }

  /** A preview is confirmed exactly if it is open to the request and nothing stands in the
      way of any row to create. */
  lemma ConfirmedIff(db: Database, req: Request, previews: seq<PreviewRow>, r: Result<Receipt, ConfirmError>,
                     after: Database)
    requires Confirms(db, req, previews, r, after)
    requires req.batchId in db.batches ==> db.batches[req.batchId].status == Preview
    ensures r.Ok? <==> Open(db, req) && AllConfirmable(db.batches[req.batchId].rows, db)
    ensures r.Err? ==> after == db
    ensures r == Err(RowsNotReady) ==> Open(db, req)
  {
    if req.batchId in db.batches {
      OpenIff(db, db.batches[req.batchId], req.expectedVersion);
      if Open(db, req) {
        AllReadyIff(db.batches[req.batchId].rows, db, previews);
      }
    }
  }

  /** The row refers to a stay already, or was edited by an earlier confirmation. */
  predicate Refers(row: ImportRow) {
    || row.stayId.Some? || row.appliedAt.Some? || row.expectedStayRevision.Some?
    || row.beforeSnapshot.Some? || row.afterSnapshot.Some?
  }

  /** Why the batch is not even looked at, the first of these. */
  ghost predicate BatchRefused(db: Database, batch: Batch, expectedVersion: int, why: ConfirmError) {
    if !batch.supported || |batch.rows| > 5000 then why == PreviewUnsupported
    else if batch.status == Confirmed then why == BatchChanged && batch.version != expectedVersion + 1
    else if batch.status != Preview || batch.version != expectedVersion then why == StaleVersion
    else if exists k :: 0 <= k < |batch.rows| && Refers(batch.rows[k]) then why == RowsAlreadyApplied
    else if exists k :: 0 <= k < |batch.rows| && batch.rows[k].action == RowAction.Update
    then why == Refused(UnsupportedAction)
    else why == Refused(RangeTooLarge) && |Window(ReviewedAll(batch.rows, db.properties), db.stays)| > 5000
  }

  lemma BatchRefusedFor(db: Database, batch: Batch, expectedVersion: int)
    ensures match BatchRefusal(db, batch, expectedVersion)
            case None => forall why :: !BatchRefused(db, batch, expectedVersion, why)
            case Some(why) => BatchRefused(db, batch, expectedVersion, why)
  {
    forall k | 0 <= k < |batch.rows| ensures Refers(batch.rows[k]) <==> !Untouched(batch.rows[k]) {
    }
    assert (exists k :: 0 <= k < |batch.rows| && Refers(batch.rows[k]))
           <==> exists k :: 0 <= k < |batch.rows| && !Untouched(batch.rows[k]);
  }

  /** What a refused confirmation is refused for. */
  lemma ConfirmRefusedFor(db: Database, req: Request, previews: seq<PreviewRow>, r: Result<Receipt, ConfirmError>,
                          after: Database)
    requires Confirms(db, req, previews, r, after) && r.Err?
    ensures after == db
    ensures if req.administrator.None? then r.error == InvalidAdminAccess
            else if req.batchId !in db.batches then r.error == PreviewNotFound
            else
              var batch := db.batches[req.batchId];
              || BatchRefused(db, batch, req.expectedVersion, r.error)
              || (batch.status == Confirmed && r.error == ConfirmationInvalid)
              || (Open(db, req) && r.error == RowsNotReady && !AllConfirmable(batch.rows, db))
  {
    if req.administrator.Some? && req.batchId in db.batches {
      var batch := db.batches[req.batchId];
      BatchRefusedFor(db, batch, req.expectedVersion);
      if BatchRefusal(db, batch, req.expectedVersion).None? && batch.status != Confirmed {
        ConfirmedIff(db, req, previews, r, after);
        OpenIff(db, batch, req.expectedVersion);
      }
    }
  }

  // ---------------------------------------------------------------- the tasks

  lemma {:induction false} TaskOfNewStay(tasks: CleaningTasks.Tasks, stays: seq<Stay>, now: int, p: nat)
    requires p < |stays| && forall i, j :: 0 <= i < j < |stays| ==> stays[i].id != stays[j].id
    requires CleaningTasks.Departure(stays[p].id) !in tasks
    ensures var key, after := CleaningTasks.Departure(stays[p].id), WithTasks(tasks, stays, now);
            && (key in after <==> CleaningTasks.SeoulDay(now) <= CleaningTasks.SeoulDay(stays[p].checkOutAt))
            && (key in after ==>
                  && TaskWrites.Untouched(after[key]) && after[key].propertyId == stays[p].propertyId
                  && after[key].dueAt == stays[p].checkOutAt && !after[key].manualDueAt
                  && after[key].sourceStayRevision == Some(stays[p].revision) && after[key].requestHash.None?)
    decreases |stays|
  {
    var front := stays[..|stays| - 1];
    WithTasksAdds(tasks, front, now);
    if p < |front| {
      TaskOfNewStay(tasks, front, now, p);
    }
  }

  /** A new stay that leaves today or later, in Seoul, gets its cleaning task, and an earlier
      one gets none. */
  lemma ConfirmAddsTasks(db: Database, req: Request, previews: seq<PreviewRow>, after: Database, p: nat)
    requires Sound(db) && FreshIds(db, req.ids) && Succeeds(db, req, previews, after) && p < |Creating(previews)|
    ensures |db.stays| + p < |after.stays|
    ensures var stay := after.stays[|db.stays| + p];
            var key := CleaningTasks.Departure(stay.id);
            && (key in after.tasks <==> CleaningTasks.SeoulDay(req.now) <= CleaningTasks.SeoulDay(stay.checkOutAt))
            && (key in after.tasks ==>
                  && TaskWrites.Untouched(after.tasks[key]) && after.tasks[key].propertyId == stay.propertyId
                  && after.tasks[key].dueAt == stay.checkOutAt && !after.tasks[key].manualDueAt
                  && after.tasks[key].sourceStayRevision == Some(1))
  {
    var added := StaysOf(Applications(Creating(previews), req.ids));
    assert after.stays[|db.stays| + p] == added[p];
    assert !Bookings.Taken(db.stays, req.ids[p]);
    TaskOfNewStay(db.tasks, added, req.now, p);
  }
}
