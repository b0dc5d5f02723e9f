/** Confirming a roster: one transaction that validates it again and turns every
    row to create into a stay, a revision and, if it is still to come, a
    cleaning task. */
module RosterConfirmation {
  import opened Wrappers
  import opened RosterPreview
  import opened RosterConflicts
  import opened RosterValidation
  import Bookings
  import CleaningTasks
  import Text

  const ROW_LIMIT := 5000
  const PERSIST_CHUNK := 100
  const CONFIRM_CHUNK := 200

  datatype ImportStatus = Preview | Confirmed | CancelledBatch | FailedBatch

  /** `supported` is the parser version, time zone and source file being the
      ones this program imports. */
  datatype Batch = Batch(status: ImportStatus, version: int, supported: bool, rows: seq<ImportRow>,
                         confirmedAt: Option<int>, confirmedBy: Option<string>)

  datatype Revision = Revision(stayId: string, version: int, snapshot: Stay, actor: string, importRowId: Option<string>,
                               createdAt: int)

  datatype Database = Database(
    properties: map<string, bool>, stays: seq<Stay>, revisions: seq<Revision>,
    tasks: CleaningTasks.Tasks, batches: map<string, Batch>)

  /** The administrator is absent when the session's user no longer is one. The
      ids are the ones drawn for the new stays. */
  datatype Request = Request(batchId: string, expectedVersion: int, administrator: Option<string>, now: int,
                             ids: seq<string>)

  datatype Receipt = Receipt(version: int, confirmedAt: int, confirmedBy: string, created: int, skipped: int)

  datatype ConfirmError =
    | InvalidAdminAccess | PreviewNotFound | PreviewUnsupported | BatchChanged | StaleVersion
    | RowsAlreadyApplied | Refused(error: ValidationError) | RowsNotReady | ConfirmationInvalid

  datatype Application = Application(rowId: string, stay: Stay)

  // ---------------------------------------------------------------- what a confirmation computes

  predicate Untouched(row: ImportRow) {
    && row.stayId.None? && row.appliedAt.None? && row.expectedStayRevision.None?
    && row.beforeSnapshot.None? && row.afterSnapshot.None?
  }

  predicate IsReady(row: PreviewRow) {
    && row.action == RowAction.Create && row.status == Valid
    && row.propertyId.Some? && row.propertyId.value != ""
    && row.data.Some? && row.data.value.guestName.Some? && Text.Trim(row.data.value.guestName.value) != ""
    && Given(row.data.value.checkInAt) && Given(row.data.value.checkOutAt)
    && (var from, to := Parse(row.data.value.checkInAt.value), Parse(row.data.value.checkOutAt.value);
        from.Some? && to.Some? && from.value < to.value)
  }

  function Creating(rows: seq<PreviewRow>): seq<PreviewRow> {
    if rows == [] then []
    else Creating(rows[..|rows| - 1])
         + (if rows[|rows| - 1].action != Skip then [rows[|rows| - 1]] else [])
  }

  function NewStay(row: PreviewRow, id: string): Stay
    requires IsReady(row)
  {
    var d := row.data.value;
    Bookings.Stay(id, row.propertyId.value,
                  Bookings.Guest(d.guestName.value, d.company, d.department, d.phone, d.notes),
                  Parse(d.checkInAt.value).value, Parse(d.checkOutAt.value).value, true, 1)
  }

  predicate AllReady(rows: seq<PreviewRow>) {
    forall k {:trigger IsReady(rows[k])} :: 0 <= k < |rows| ==> IsReady(rows[k])
  }

  function Applications(creating: seq<PreviewRow>, ids: seq<string>): seq<Application>
    requires AllReady(creating) && |creating| <= |ids|
  {
    seq(|creating|, k requires 0 <= k < |creating| => Application(creating[k].id, NewStay(creating[k], ids[k])))
  }

  function StaysOf(applications: seq<Application>): seq<Stay> {
    seq(|applications|, k requires 0 <= k < |applications| => applications[k].stay)
  }

  function RevisionsOf(applications: seq<Application>, actor: string, now: int): seq<Revision> {
    seq(|applications|, k requires 0 <= k < |applications| =>
      Revision(applications[k].stay.id, 1, applications[k].stay, actor, Some(applications[k].rowId), now))
  }

  /** The stay as the cleaning tasks see it. */
  function Departing(stay: Stay): CleaningTasks.Stay {
    CleaningTasks.Stay(stay.id, stay.propertyId, stay.revision, stay.checkOutAt,
                       if stay.active then CleaningTasks.Active else CleaningTasks.StayCancelled, true)
  }

  /** The bulk insertion of the tasks of stays that are still to depart. */
  function WithTasks(tasks: CleaningTasks.Tasks, stays: seq<Stay>, now: int): CleaningTasks.Tasks
    decreases |stays|
  {
    if stays == [] then tasks
    else
      var stay, front := stays[|stays| - 1], WithTasks(tasks, stays[..|stays| - 1], now);
      if CleaningTasks.CleaningTaskCutoff(now) <= stay.checkOutAt
      then front[CleaningTasks.Departure(stay.id) := CleaningTasks.NewTask(Departing(stay))]
      else front
  }

  function FindPreview(previews: seq<PreviewRow>, id: string): Option<PreviewRow> {
    if previews == [] then None
    else if previews[0].id == id then Some(previews[0]) else FindPreview(previews[1..], id)
  }

  function FindApplication(applications: seq<Application>, id: string): Option<Application> {
    if applications == [] then None
    else if applications[0].rowId == id then Some(applications[0]) else FindApplication(applications[1..], id)
  }

  /** A stored row after the statement that saves validations. */
  function PersistedRow(row: ImportRow, previews: seq<PreviewRow>): ImportRow {
    var found := FindPreview(previews, row.id);
    if found.None? || row.stayId.Some? || row.appliedAt.Some? then row
    else row.(propertyId := found.value.propertyId, action := found.value.action, status := found.value.status,
              data := found.value.data, messages := found.value.messages)
  }

  function PersistedRows(rows: seq<ImportRow>, previews: seq<PreviewRow>): seq<ImportRow> {
    seq(|rows|, k requires 0 <= k < |rows| => PersistedRow(rows[k], previews))
  }

  /** A stored row after the statement that records applications. */
  function AppliedRow(row: ImportRow, applications: seq<Application>, now: int): ImportRow {
    var found := FindApplication(applications, row.id);
    if found.None? || row.action != RowAction.Create || row.status != Valid || row.stayId.Some? || row.appliedAt.Some?
    then row
    else row.(propertyId := Some(found.value.stay.propertyId), stayId := Some(found.value.stay.id),
              afterSnapshot := Some(found.value.stay), appliedAt := Some(now))
  }

  function AppliedRows(rows: seq<ImportRow>, applications: seq<Application>, now: int): seq<ImportRow> {
    seq(|rows|, k requires 0 <= k < |rows| => AppliedRow(rows[k], applications, now))
  }

  function Applied(rows: seq<ImportRow>): nat {
    if rows == [] then 0
    else Applied(rows[..|rows| - 1])
         + (if rows[|rows| - 1].stayId.Some? && rows[|rows| - 1].appliedAt.Some? then 1 else 0)
  }

  function Skipped(rows: seq<ImportRow>): nat {
    if rows == [] then 0
    else Skipped(rows[..|rows| - 1]) + (if rows[|rows| - 1].action == Skip then 1 else 0)
  }

  /** The receipt as it is read back from a confirmed batch. */
  function ReceiptOf(batch: Batch): Result<Receipt, ConfirmError> {
    var created, skipped := Applied(batch.rows), Skipped(batch.rows);
    if || batch.confirmedAt.None? || batch.confirmedBy.None? || batch.version < 2
       || created + skipped != |batch.rows|
       || (exists k :: 0 <= k < |batch.rows| && batch.rows[k].stayId.Some? && batch.rows[k].appliedAt.Some?
                       && batch.rows[k].action != RowAction.Create)
       || (exists k :: 0 <= k < |batch.rows| && batch.rows[k].action == Skip
                       && (batch.rows[k].stayId.Some? || batch.rows[k].appliedAt.Some?))
    then Err(ConfirmationInvalid)
    else Ok(Receipt(batch.version, batch.confirmedAt.value, batch.confirmedBy.value, created, skipped))
  }

  predicate DistinctRowIds(rows: seq<ImportRow>) {
    forall i, j :: 0 <= i < j < |rows| ==> rows[i].id != rows[j].id
  }

  predicate DistinctPreviewIds(rows: seq<PreviewRow>) {
    forall i, j :: 0 <= i < j < |rows| ==> rows[i].id != rows[j].id
  }

  // ---------------------------------------------------------------- the meaning of a confirmation

  predicate SameIds(rows: seq<ImportRow>, previews: seq<PreviewRow>) {
    |previews| == |rows| && forall k :: 0 <= k < |rows| ==> previews[k].id == rows[k].id
  }

  /** What the validation inside the transaction established of a row. */
  ghost predicate RowValidated(rows: seq<ImportRow>, db: Database, preview: PreviewRow, k: nat)
    requires k < |rows|
  {
    var reviewed := ReviewedAll(rows, db.properties);
    && Outcome(reviewed, preview, Window(reviewed, db.stays), k)
    && (rows[k].action == RowAction.Create ==>
          (preview.status == Valid <==> Confirmable(rows, db.properties, db.stays, k)))
  }

  ghost predicate ValidatedAs(rows: seq<ImportRow>, db: Database, previews: seq<PreviewRow>) {
    && SameIds(rows, previews)
    && forall k {:trigger RowValidated(rows, db, previews[k], k)} :: 0 <= k < |rows| ==>
         RowValidated(rows, db, previews[k], k)
  }

  function ConfirmedBatch(batch: Batch, previews: seq<PreviewRow>, applications: seq<Application>,
                          actor: string, now: int): Batch {
    Batch(Confirmed, batch.version + 1, batch.supported,
          AppliedRows(PersistedRows(batch.rows, previews), applications, now), Some(now), Some(actor))
  }

  function ReceiptFor(batch: Batch, previews: seq<PreviewRow>, actor: string, now: int): Receipt {
    Receipt(batch.version + 1, now, actor, |Creating(previews)|, |batch.rows| - |Creating(previews)|)
  }

  function ConfirmedDatabase(db: Database, req: Request, previews: seq<PreviewRow>): Database
    requires req.batchId in db.batches && req.administrator.Some?
    requires AllReady(Creating(previews)) && |Creating(previews)| <= |req.ids|
  {
    var applications, batch := Applications(Creating(previews), req.ids), db.batches[req.batchId];
    var actor := req.administrator.value;
    db.(stays := db.stays + StaysOf(applications),
        revisions := db.revisions + RevisionsOf(applications, actor, req.now),
        tasks := WithTasks(db.tasks, StaysOf(applications), req.now),
        batches := db.batches[req.batchId := ConfirmedBatch(batch, previews, applications, actor, req.now)])
  }

  /** Why a request on a batch is refused before its rows are judged. */
  function BatchRefusal(db: Database, batch: Batch, expectedVersion: int): Option<ConfirmError> {
    if !batch.supported || |batch.rows| > ROW_LIMIT then Some(PreviewUnsupported)
    else if batch.status == Confirmed then
      if expectedVersion != batch.version - 1 then Some(BatchChanged) else None
    else if batch.status != Preview || batch.version != expectedVersion then Some(StaleVersion)
    else if exists k :: 0 <= k < |batch.rows| && !Untouched(batch.rows[k]) then Some(RowsAlreadyApplied)
    else if exists k :: 0 <= k < |batch.rows| && batch.rows[k].action == RowAction.Update
    then Some(Refused(UnsupportedAction))
    else if |Window(ReviewedAll(batch.rows, db.properties), db.stays)| > STAY_LIMIT then Some(Refused(RangeTooLarge))
    else None
  }

  /** A preview whose rows were validated is confirmed when all of them are ready. */
  ghost predicate ConfirmsPreview(db: Database, req: Request, previews: seq<PreviewRow>,
                                  r: Result<Receipt, ConfirmError>, after: Database)
    requires req.batchId in db.batches && req.administrator.Some?
  {
    var batch, creating := db.batches[req.batchId], Creating(previews);
    && ValidatedAs(batch.rows, db, previews)
    && if !AllReady(creating) then r == Err(RowsNotReady) && after == db
       else
         && |creating| <= |req.ids|
         && after == ConfirmedDatabase(db, req, previews)
         && r == Ok(ReceiptFor(batch, previews, req.administrator.value, req.now))
  }

  /** One confirmation, from a request to its answer and the tables it leaves. */
  ghost predicate Confirms(db: Database, req: Request, previews: seq<PreviewRow>,
                           r: Result<Receipt, ConfirmError>, after: Database) {
    if req.administrator.None? then r == Err(InvalidAdminAccess) && after == db
    else if req.batchId !in db.batches then r == Err(PreviewNotFound) && after == db
    else
      var batch := db.batches[req.batchId];
      var refusal := BatchRefusal(db, batch, req.expectedVersion);
      if refusal.Some? then r == Err(refusal.value) && after == db
      else if batch.status == Confirmed then r == ReceiptOf(batch) && after == db
      else ConfirmsPreview(db, req, previews, r, after)
  }

  // ---------------------------------------------------------------- no double booking

  ghost predicate DepartureTasksHaveStays(db: Database) {
    forall id: string :: CleaningTasks.Departure(id) in db.tasks ==> Bookings.Taken(db.stays, id)
  }

  predicate BatchSound(batch: Batch) {
    DistinctRowIds(batch.rows) && 1 <= batch.version
  }

  ghost predicate Sound(db: Database) {
    && Bookings.Sound(db.stays) && DepartureTasksHaveStays(db)
    && forall id :: id in db.batches ==> BatchSound(db.batches[id])
  }

  predicate FreshIds(db: Database, ids: seq<string>) {
    && (forall i, j :: 0 <= i < j < |ids| ==> ids[i] != ids[j])
    && (forall i :: 0 <= i < |ids| ==> !Bookings.Taken(db.stays, ids[i]))
  }

  /** The position in the roster of the p-th row to create. */
  function Origin(rows: seq<PreviewRow>, p: nat): nat
    requires p < |Creating(rows)|
    ensures Origin(rows, p) < |rows|
  {
    if rows[|rows| - 1].action != Skip && p == |Creating(rows)| - 1 then |rows| - 1
    else Origin(rows[..|rows| - 1], p)
  }

  lemma {:induction false} OriginMeans(rows: seq<PreviewRow>, p: nat)
    requires p < |Creating(rows)|
    ensures rows[Origin(rows, p)] == Creating(rows)[p] && rows[Origin(rows, p)].action != Skip
    ensures forall q :: p < q < |Creating(rows)| ==> Origin(rows, p) < Origin(rows, q)
  {
    var front, last := rows[..|rows| - 1], rows[|rows| - 1];
    if !(last.action != Skip && p == |Creating(rows)| - 1) {
      OriginMeans(front, p);
      forall q | p < q < |Creating(rows)| ensures Origin(rows, p) < Origin(rows, q) {
        if q < |Creating(front)| {
          assert Origin(rows, q) == Origin(front, q);
        }
      }
    }
  }

  /** A ready row is confirmable, and its stay has the bounds the check used. */
  lemma ReadyRow(rows: seq<ImportRow>, db: Database, previews: seq<PreviewRow>, k: nat, id: string)
    requires ValidatedAs(rows, db, previews) && k < |rows| && IsReady(previews[k])
    ensures Confirmable(rows, db.properties, db.stays, k)
    ensures var reviewed, stay := ReviewedAll(rows, db.properties)[k], NewStay(previews[k], id);
            && Checked(reviewed) && reviewed.propertyId == Some(stay.propertyId)
            && BoundsOf(reviewed) == Some(Bounds(stay.checkInAt, stay.checkOutAt))
  {
    var reviewed := ReviewedAll(rows, db.properties);
    assert RowValidated(rows, db, previews[k], k);
    assert rows[k].action == RowAction.Create;
    OutcomeValid(rows, db.properties, db.stays, k, previews[k]);
  }

  lemma NewStayFree(rows: seq<ImportRow>, db: Database, previews: seq<PreviewRow>, k: nat, id: string, s: Stay)
    requires ValidatedAs(rows, db, previews) && k < |rows| && IsReady(previews[k]) && s in db.stays
    ensures Bookings.Apart(s, NewStay(previews[k], id))
  {
    ReadyRow(rows, db, previews, k, id);
    var reviewed := ReviewedAll(rows, db.properties)[k];
    if !Bookings.Apart(s, NewStay(previews[k], id)) {
      assert Hits(reviewed, AsConflict(s));
      assert Blocked(reviewed, db.stays);
      assert false;
    }
  }

  lemma NewStaysApart(rows: seq<ImportRow>, db: Database, previews: seq<PreviewRow>, k: nat, l: nat,
                      id: string, other: string)
    requires ValidatedAs(rows, db, previews) && k < |rows| && l < |rows| && k != l
    requires IsReady(previews[k]) && IsReady(previews[l])
    ensures Bookings.Apart(NewStay(previews[k], id), NewStay(previews[l], other))
  {
    ReadyRow(rows, db, previews, k, id);
    ReadyRow(rows, db, previews, l, other);
    assert !Rivals(ReviewedAll(rows, db.properties), k, l);
  }

  lemma AddedApartFromOld(db: Database, rows: seq<ImportRow>, previews: seq<PreviewRow>, id: string, q: nat, s: Stay)
    requires ValidatedAs(rows, db, previews)
    requires q < |Creating(previews)| && IsReady(Creating(previews)[q]) && s in db.stays
    ensures Bookings.Apart(s, NewStay(Creating(previews)[q], id))
  {
    OriginMeans(previews, q);
    NewStayFree(rows, db, previews, Origin(previews, q), id, s);
  }

  lemma AddedApart(db: Database, rows: seq<ImportRow>, previews: seq<PreviewRow>, p: nat, q: nat,
                   id: string, other: string)
    requires ValidatedAs(rows, db, previews)
    requires p < q < |Creating(previews)| && IsReady(Creating(previews)[p]) && IsReady(Creating(previews)[q])
    ensures Bookings.Apart(NewStay(Creating(previews)[p], id), NewStay(Creating(previews)[q], other))
  {
    OriginMeans(previews, p);
    OriginMeans(previews, q);
    NewStaysApart(rows, db, previews, Origin(previews, p), Origin(previews, q), id, other);
  }

  /** Stays that are apart from the old ones and from each other may join them. */
  lemma JoinStays(stays: seq<Stay>, added: seq<Stay>)
    requires Bookings.Sound(stays) && Bookings.Sound(added)
    requires forall i, j :: 0 <= i < |stays| && 0 <= j < |added| ==>
               Bookings.Apart(stays[i], added[j]) && stays[i].id != added[j].id
    ensures Bookings.Sound(stays + added)
  {
    var all, n := stays + added, |stays|;
    forall i, j | 0 <= i < j < |all| ensures Bookings.Apart(all[i], all[j]) && all[i].id != all[j].id {
      if j < n {
        assert Bookings.Apart(stays[i], stays[j]);
      } else if n <= i {
        assert Bookings.Apart(added[i - n], added[j - n]);
      }
    }
  }

  lemma ConfirmKeepsStays(db: Database, rows: seq<ImportRow>, previews: seq<PreviewRow>, ids: seq<string>)
    requires FreshIds(db, ids) && Bookings.Sound(db.stays) && ValidatedAs(rows, db, previews)
    requires AllReady(Creating(previews)) && |Creating(previews)| <= |ids|
    ensures Bookings.Sound(db.stays + StaysOf(Applications(Creating(previews), ids)))
  {
    var creating := Creating(previews);
    var added := StaysOf(Applications(creating, ids));
    forall i, j | 0 <= i < j < |added| ensures Bookings.Apart(added[i], added[j]) {
      AddedApart(db, rows, previews, i, j, ids[i], ids[j]);
    }
    forall i, j | 0 <= i < |db.stays| && 0 <= j < |added|
      ensures Bookings.Apart(db.stays[i], added[j]) && db.stays[i].id != added[j].id
    {
      AddedApartFromOld(db, rows, previews, ids[j], j, db.stays[i]);
      assert !Bookings.Taken(db.stays, ids[j]);
    }
    JoinStays(db.stays, added);
  }

  // ---------------------------------------------------------------- the bulk tasks

  function DepartingAll(stays: seq<Stay>): seq<CleaningTasks.Stay> {
    seq(|stays|, k requires 0 <= k < |stays| => Departing(stays[k]))
  }

  lemma {:induction false} SyncedAllAppend(tasks: CleaningTasks.Tasks, stays: seq<CleaningTasks.Stay>,
                                           last: CleaningTasks.Stay, now: int)
    ensures CleaningTasks.SyncedAll(tasks, stays + [last], now)
            == CleaningTasks.Synced(CleaningTasks.SyncedAll(tasks, stays, now), last, now)
    decreases |stays|
  {
    if stays == [] {
      assert [last][1..] == [];
    } else {
      assert (stays + [last])[1..] == stays[1..] + [last];
      SyncedAllAppend(CleaningTasks.Synced(tasks, stays[0], now), stays[1..], last, now);
    }
  }

  lemma {:induction false} WithTasksAdds(tasks: CleaningTasks.Tasks, stays: seq<Stay>, now: int)
    ensures forall key :: key in WithTasks(tasks, stays, now) ==>
              key in tasks || exists k :: 0 <= k < |stays| && key == CleaningTasks.Departure(stays[k].id)
    decreases |stays|
  {
    if stays != [] {
      WithTasksAdds(tasks, stays[..|stays| - 1], now);
    }
  }

  /** The bulk insertion leaves the tasks that reconciling each new stay in turn,
      at the same clock, would leave. */
  lemma {:induction false} BulkTasksAreSynced(tasks: CleaningTasks.Tasks, stays: seq<Stay>, now: int)
    requires Bookings.UniqueIds(stays)
    requires forall k :: 0 <= k < |stays| ==>
               stays[k].active && CleaningTasks.Departure(stays[k].id) !in tasks
    ensures WithTasks(tasks, stays, now) == CleaningTasks.SyncedAll(tasks, DepartingAll(stays), now)
    decreases |stays|
  {
    if stays != [] {
      var front, last := stays[..|stays| - 1], stays[|stays| - 1];
      BulkTasksAreSynced(tasks, front, now);
      WithTasksAdds(tasks, front, now);
      assert DepartingAll(stays) == DepartingAll(front) + [Departing(last)];
      SyncedAllAppend(tasks, DepartingAll(front), Departing(last), now);
    }
  }

  // ---------------------------------------------------------------- conservation of rows

  /** How many rows to create come before the k-th row. */
  function Place(rows: seq<PreviewRow>, k: nat): nat
    requires k <= |rows|
  {
    |Creating(rows[..k])|
  }

  lemma {:induction false} PlaceIsOrigin(rows: seq<PreviewRow>, k: nat)
    requires k < |rows| && rows[k].action != Skip
    ensures Place(rows, k) < |Creating(rows)| && Origin(rows, Place(rows, k)) == k
    ensures Creating(rows)[Place(rows, k)] == rows[k]
  {
    var front := rows[..|rows| - 1];
    if k == |rows| - 1 {
      assert rows[..k] == front;
    } else {
      PlaceIsOrigin(front, k);
      assert front[..k] == rows[..k];
    }
  }

  lemma {:induction false} FindPreviewAt(previews: seq<PreviewRow>, k: nat)
    requires k < |previews| && DistinctPreviewIds(previews)
    ensures FindPreview(previews, previews[k].id) == Some(previews[k])
  {
    if k > 0 {
      FindPreviewAt(previews[1..], k - 1);
    }
  }

  lemma {:induction false} FindApplicationAt(applications: seq<Application>, p: nat)
    requires p < |applications|
    requires forall q :: 0 <= q < p ==> applications[q].rowId != applications[p].rowId
    ensures FindApplication(applications, applications[p].rowId) == Some(applications[p])
  {
    if p > 0 {
      FindApplicationAt(applications[1..], p - 1);
    }
  }

  lemma {:induction false} FindNoApplication(applications: seq<Application>, id: string)
    requires forall q :: 0 <= q < |applications| ==> applications[q].rowId != id
    ensures FindApplication(applications, id).None?
  {
    if applications != [] {
      FindNoApplication(applications[1..], id);
    }
  }

  function ApplicationOf(previews: seq<PreviewRow>, ids: seq<string>, k: nat): Option<Application>
    requires k < |previews| && AllReady(Creating(previews)) && |Creating(previews)| <= |ids|
  {
    if previews[k].action != Skip && Place(previews, k) < |Creating(previews)|
    then Some(Applications(Creating(previews), ids)[Place(previews, k)]) else None
  }

  lemma ApplicationFor(previews: seq<PreviewRow>, ids: seq<string>, k: nat)
    requires DistinctPreviewIds(previews) && k < |previews|
    requires AllReady(Creating(previews)) && |Creating(previews)| <= |ids|
    ensures previews[k].action != Skip ==> Place(previews, k) < |Creating(previews)| && IsReady(previews[k])
    ensures FindApplication(Applications(Creating(previews), ids), previews[k].id) == ApplicationOf(previews, ids, k)
  {
    var creating := Creating(previews);
    var applications := Applications(creating, ids);
    forall q | 0 <= q < |creating|
      ensures applications[q].rowId == previews[Origin(previews, q)].id
      ensures applications[q].rowId == previews[k].id ==> Origin(previews, q) == k && previews[k].action != Skip
    {
      OriginMeans(previews, q);
    }
    if previews[k].action == Skip {
      FindNoApplication(applications, previews[k].id);
    } else {
      PlaceIsOrigin(previews, k);
      var p := Place(previews, k);
      forall q | 0 <= q < p ensures applications[q].rowId != applications[p].rowId {
        OriginMeans(previews, q);
      }
      FindApplicationAt(applications, p);
    }
  }

  /** What becomes of one row: a skipped row is only saved, a row to create is
      tied to the stay that its place in the roster created. */
  predicate RowConfirmed(row: ImportRow, preview: PreviewRow, application: Option<Application>, now: int) {
    && row.id == preview.id && row.data == preview.data && row.messages == preview.messages
    && row.status == preview.status && row.action == preview.action
    && match application
       case None => row.action == Skip && row.stayId.None? && row.appliedAt.None? && row.afterSnapshot.None?
       case Some(a) => && row.action == RowAction.Create && row.stayId == Some(a.stay.id)
                       && row.appliedAt == Some(now) && row.afterSnapshot == Some(a.stay)
                       && row.propertyId == Some(a.stay.propertyId)
  }

  lemma RowBecomes(rows: seq<ImportRow>, previews: seq<PreviewRow>, ids: seq<string>, now: int, k: nat)
    requires SameIds(rows, previews) && DistinctRowIds(rows) && k < |rows| && Untouched(rows[k])
    requires AllReady(Creating(previews)) && |Creating(previews)| <= |ids|
    ensures var after := AppliedRows(PersistedRows(rows, previews), Applications(Creating(previews), ids), now);
            RowConfirmed(after[k], previews[k], ApplicationOf(previews, ids, k), now)
  {
    FindPreviewAt(previews, k);
    ApplicationFor(previews, ids, k);
  }

  ghost predicate RowsConfirmed(after: seq<ImportRow>, previews: seq<PreviewRow>, ids: seq<string>, now: int)
    requires AllReady(Creating(previews)) && |Creating(previews)| <= |ids|
  {
    && |after| == |previews|
    && forall k {:trigger ApplicationOf(previews, ids, k)} :: 0 <= k < |previews| ==>
         RowConfirmed(after[k], previews[k], ApplicationOf(previews, ids, k), now)
  }

  /** Exactly the rows that are not skipped were applied. */
  predicate Classified(row: ImportRow, preview: PreviewRow) {
    && row.action == preview.action && (row.action == Skip || row.action == RowAction.Create)
    && (row.stayId.Some? <==> row.action != Skip) && (row.appliedAt.Some? <==> row.action != Skip)
  }

  predicate AllClassified(rows: seq<ImportRow>, previews: seq<PreviewRow>) {
    |rows| == |previews| && forall k :: 0 <= k < |rows| ==> Classified(rows[k], previews[k])
  }

  lemma RowsClassified(rows: seq<ImportRow>, previews: seq<PreviewRow>, ids: seq<string>, now: int)
    requires AllReady(Creating(previews)) && |Creating(previews)| <= |ids|
    requires RowsConfirmed(rows, previews, ids, now)
    ensures AllClassified(rows, previews)
  {
    forall k | 0 <= k < |rows| ensures Classified(rows[k], previews[k]) {
      assert RowConfirmed(rows[k], previews[k], ApplicationOf(previews, ids, k), now);
      if previews[k].action != Skip {
        PlaceIsOrigin(previews, k);
      }
    }
  }

  lemma {:induction false} CountRows(rows: seq<ImportRow>, previews: seq<PreviewRow>)
    requires AllClassified(rows, previews)
    ensures Applied(rows) == |Creating(previews)|
    ensures Skipped(rows) == |rows| - |Creating(previews)|
  {
    if rows != [] {
      var n := |rows| - 1;
      CountRows(rows[..n], previews[..n]);
      assert Classified(rows[n], previews[n]);
    }
  }

  /** A confirmed batch reads back as the receipt that the confirmation gave. */
  lemma ReceiptReadsBack(batch: Batch, previews: seq<PreviewRow>)
    requires batch.confirmedAt.Some? && batch.confirmedBy.Some? && 2 <= batch.version
    requires AllClassified(batch.rows, previews)
    ensures ReceiptOf(batch) == Ok(Receipt(batch.version, batch.confirmedAt.value, batch.confirmedBy.value,
                                           |Creating(previews)|, |batch.rows| - |Creating(previews)|))
  {
    CountRows(batch.rows, previews);
    forall k | 0 <= k < |batch.rows| ensures Classified(batch.rows[k], previews[k]) {
    }
  }

  // ---------------------------------------------------------------- the results of a confirmation

  lemma AcceptedBatch(db: Database, batch: Batch, expectedVersion: int)
    requires batch.status == Preview
    ensures BatchRefusal(db, batch, expectedVersion).None? ==>
              && batch.version == expectedVersion && batch.supported && |batch.rows| <= ROW_LIMIT
              && forall k :: 0 <= k < |batch.rows| ==> Untouched(batch.rows[k])
  {
  }

  /** The writes of a confirmation were made. */
  predicate Writes(db: Database, req: Request, previews: seq<PreviewRow>, after: Database) {
    && req.administrator.Some? && req.batchId in db.batches
    && AllReady(Creating(previews)) && |Creating(previews)| <= |req.ids|
    && after == ConfirmedDatabase(db, req, previews)
  }

  /** The request turns a preview into stays. */
  ghost predicate Succeeds(db: Database, req: Request, previews: seq<PreviewRow>, after: Database) {
    && Writes(db, req, previews, after) && db.batches[req.batchId].status == Preview
    && BatchRefusal(db, db.batches[req.batchId], req.expectedVersion).None?
    && ValidatedAs(db.batches[req.batchId].rows, db, previews)
  }

  lemma SuccessMeans(db: Database, req: Request, previews: seq<PreviewRow>,
                     r: Result<Receipt, ConfirmError>, after: Database)
    requires req.batchId in db.batches && db.batches[req.batchId].status == Preview && r.Ok?
    ensures Confirms(db, req, previews, r, after) ==>
              && Succeeds(db, req, previews, after)
              && r == Ok(ReceiptFor(db.batches[req.batchId], previews, req.administrator.value, req.now))
  {
  }

  lemma RowsBecome(rows: seq<ImportRow>, previews: seq<PreviewRow>, ids: seq<string>, now: int)
    requires SameIds(rows, previews) && DistinctRowIds(rows)
    requires forall k :: 0 <= k < |rows| ==> Untouched(rows[k])
    requires AllReady(Creating(previews)) && |Creating(previews)| <= |ids|
    ensures var final := AppliedRows(PersistedRows(rows, previews), Applications(Creating(previews), ids), now);
            RowsConfirmed(final, previews, ids, now) && AllClassified(final, previews)
  {
    var final := AppliedRows(PersistedRows(rows, previews), Applications(Creating(previews), ids), now);
    forall k | 0 <= k < |previews| ensures RowConfirmed(final[k], previews[k], ApplicationOf(previews, ids, k), now) {
      RowBecomes(rows, previews, ids, now, k);
    }
    RowsClassified(final, previews, ids, now);
  }

  /** Every row to create gets the reference to its own stay, every other row
      gets none, and the counts of the receipt add up to the roster. */
  lemma ConfirmConservesRows(batch: Batch, previews: seq<PreviewRow>, ids: seq<string>, actor: string, now: int)
    requires BatchSound(batch) && SameIds(batch.rows, previews)
    requires forall k :: 0 <= k < |batch.rows| ==> Untouched(batch.rows[k])
    requires AllReady(Creating(previews)) && |Creating(previews)| <= |ids|
    ensures var final := ConfirmedBatch(batch, previews, Applications(Creating(previews), ids), actor, now);
            && RowsConfirmed(final.rows, previews, ids, now) && AllClassified(final.rows, previews)
            && ReceiptOf(final) == Ok(ReceiptFor(batch, previews, actor, now))
  {
    RowsBecome(batch.rows, previews, ids, now);
    ReceiptReadsBack(ConfirmedBatch(batch, previews, Applications(Creating(previews), ids), actor, now), previews);
  }

  lemma ConfirmedEntry(db: Database, req: Request, previews: seq<PreviewRow>, after: Database)
    requires Writes(db, req, previews, after)
    ensures req.batchId in after.batches
    ensures after.batches[req.batchId]
            == ConfirmedBatch(db.batches[req.batchId], previews, Applications(Creating(previews), req.ids),
                              req.administrator.value, req.now)
  {
  }

  lemma BatchReadsBack(batch: Batch, previews: seq<PreviewRow>, ids: seq<string>, actor: string, now: int)
    requires BatchSound(batch) && SameIds(batch.rows, previews)
    requires forall k :: 0 <= k < |batch.rows| ==> Untouched(batch.rows[k])
    requires AllReady(Creating(previews)) && |Creating(previews)| <= |ids|
    ensures ReceiptOf(ConfirmedBatch(batch, previews, Applications(Creating(previews), ids), actor, now))
            == Ok(ReceiptFor(batch, previews, actor, now))
  {
    ConfirmConservesRows(batch, previews, ids, actor, now);
  }

  /** A confirmed batch reads back as the receipt its confirmation answered with. */
  lemma ConfirmReadsBack(db: Database, req: Request, previews: seq<PreviewRow>, after: Database)
    requires Succeeds(db, req, previews, after) && BatchSound(db.batches[req.batchId])
    ensures req.batchId in after.batches
    ensures ReceiptOf(after.batches[req.batchId])
            == Ok(ReceiptFor(db.batches[req.batchId], previews, req.administrator.value, req.now))
  {
    var batch := db.batches[req.batchId];
    AcceptedBatch(db, batch, req.expectedVersion);
    ConfirmedEntry(db, req, previews, after);
    BatchReadsBack(batch, previews, req.ids, req.administrator.value, req.now);
  }

  /** The stay holds, field by field, what a row of the roster says. */
  predicate HoldsRow(stay: Stay, propertyId: Option<string>, data: Option<Normalized>) {
    && data.Some? && Some(stay.propertyId) == propertyId
    && Some(stay.guest.name) == data.value.guestName && stay.guest.company == data.value.company
    && stay.guest.department == data.value.department && stay.guest.phone == data.value.phone
    && stay.guest.notes == data.value.notes
    && data.value.checkInAt.Some? && Parse(data.value.checkInAt.value) == Some(stay.checkInAt)
    && data.value.checkOutAt.Some? && Parse(data.value.checkOutAt.value) == Some(stay.checkOutAt)
    && stay.active && stay.revision == 1
  }

  /** The p-th row to create became this stay, recorded by this revision. */
  predicate StayAdded(previews: seq<PreviewRow>, p: nat, id: string, actor: string, now: int, stay: Stay,
                      revision: Revision)
    requires p < |Creating(previews)|
  {
    var row := previews[Origin(previews, p)];
    && stay.id == id && HoldsRow(stay, row.propertyId, row.data)
    && revision.stayId == stay.id && revision.version == 1 && revision.snapshot == stay
    && revision.actor == actor && revision.createdAt == now && revision.importRowId == Some(row.id)
  }

  lemma AddedAt(previews: seq<PreviewRow>, ids: seq<string>, actor: string, now: int, p: nat)
    requires AllReady(Creating(previews)) && |Creating(previews)| <= |ids| && p < |Creating(previews)|
    ensures var applications := Applications(Creating(previews), ids);
            StayAdded(previews, p, ids[p], actor, now, StaysOf(applications)[p],
                      RevisionsOf(applications, actor, now)[p])
  {
    OriginMeans(previews, p);
    assert IsReady(Creating(previews)[p]);
  }

  /** Behind what was there, each row to create stands as its stay and revision. */
  ghost predicate StaysAppended(stays: seq<Stay>, revisions: seq<Revision>, previews: seq<PreviewRow>,
                                ids: seq<string>, actor: string, now: int, allStays: seq<Stay>,
                                allRevisions: seq<Revision>) {
    && |Creating(previews)| <= |ids|
    && |allStays| == |stays| + |Creating(previews)| && stays <= allStays
    && |allRevisions| == |revisions| + |Creating(previews)| && revisions <= allRevisions
    && forall p {:trigger Origin(previews, p)} :: 0 <= p < |Creating(previews)| ==>
         StayAdded(previews, p, ids[p], actor, now, allStays[|stays| + p], allRevisions[|revisions| + p])
  }

  lemma AppendStays(stays: seq<Stay>, revisions: seq<Revision>, previews: seq<PreviewRow>, ids: seq<string>,
                    actor: string, now: int)
    requires AllReady(Creating(previews)) && |Creating(previews)| <= |ids|
    ensures var applications := Applications(Creating(previews), ids);
            StaysAppended(stays, revisions, previews, ids, actor, now,
                          stays + StaysOf(applications), revisions + RevisionsOf(applications, actor, now))
  {
    forall p | 0 <= p < |Creating(previews)| {
      AddedAt(previews, ids, actor, now, p);
    }
  }

  /** Each row to create adds one stay, holding what the row says, and one
      revision of that stay naming the row. */
  lemma ConfirmAddsStays(db: Database, req: Request, previews: seq<PreviewRow>, after: Database)
    requires Writes(db, req, previews, after)
    ensures StaysAppended(db.stays, db.revisions, previews, req.ids, req.administrator.value, req.now, after.stays,
                          after.revisions)
  {
    AppendStays(db.stays, db.revisions, previews, req.ids, req.administrator.value, req.now);
  }

  /** Its tasks are those of reconciling each new stay at the same clock. */
  lemma ConfirmSyncsTasks(db: Database, req: Request, previews: seq<PreviewRow>, after: Database)
    requires Sound(db) && FreshIds(db, req.ids) && Writes(db, req, previews, after)
    ensures |db.stays| <= |after.stays|
    ensures after.tasks == CleaningTasks.SyncedAll(db.tasks, DepartingAll(after.stays[|db.stays|..]), req.now)
  {
    var added := StaysOf(Applications(Creating(previews), req.ids));
    assert after.stays[|db.stays|..] == added;
    forall k | 0 <= k < |added| ensures CleaningTasks.Departure(added[k].id) !in db.tasks {
      assert !Bookings.Taken(db.stays, req.ids[k]);
    }
    BulkTasksAreSynced(db.tasks, added, req.now);
  }

  lemma TakenGrows(stays: seq<Stay>, added: seq<Stay>, id: string)
    ensures Bookings.Taken(stays + added, id) <==> Bookings.Taken(stays, id) || Bookings.Taken(added, id)
  {
    var all, n := stays + added, |stays|;
    if i :| 0 <= i < n && stays[i].id == id {
      assert all[i].id == id;
    }
    if i :| 0 <= i < |added| && added[i].id == id {
      assert all[n + i].id == id;
    }
  }

  /** A confirmation double-books nothing, whatever its answer. */
  lemma ConfirmKeepsSound(db: Database, req: Request, previews: seq<PreviewRow>,
                          r: Result<Receipt, ConfirmError>, after: Database)
    requires Sound(db) && FreshIds(db, req.ids) && Confirms(db, req, previews, r, after)
    ensures Sound(after)
  {
    if after != db {
      assert Succeeds(db, req, previews, after);
      var rows, added := db.batches[req.batchId].rows, StaysOf(Applications(Creating(previews), req.ids));
      ConfirmKeepsStays(db, rows, previews, req.ids);
      WithTasksAdds(db.tasks, added, req.now);
      forall id: string | CleaningTasks.Departure(id) in after.tasks ensures Bookings.Taken(after.stays, id) {
        TakenGrows(db.stays, added, id);
      }
      assert BatchSound(db.batches[req.batchId]);
    }
  }

  // ---------------------------------------------------------------- statements in chunks

  lemma {:induction false} FindPreviewAppend(first: seq<PreviewRow>, second: seq<PreviewRow>, id: string)
    ensures FindPreview(first + second, id)
            == if FindPreview(first, id).Some? then FindPreview(first, id) else FindPreview(second, id)
    decreases |first|
  {
    if first == [] {
      assert first + second == second;
    } else {
      assert (first + second)[1..] == first[1..] + second;
      FindPreviewAppend(first[1..], second, id);
    }
  }

  lemma {:induction false} FindApplicationAppend(first: seq<Application>, second: seq<Application>, id: string)
    ensures FindApplication(first + second, id)
            == if FindApplication(first, id).Some? then FindApplication(first, id) else FindApplication(second, id)
    decreases |first|
  {
    if first == [] {
      assert first + second == second;
    } else {
      assert (first + second)[1..] == first[1..] + second;
      FindApplicationAppend(first[1..], second, id);
    }
  }

  lemma {:induction false} FoundPreview(previews: seq<PreviewRow>, id: string)
    ensures FindPreview(previews, id).Some? ==>
              exists k :: 0 <= k < |previews| && previews[k].id == id && FindPreview(previews, id) == Some(previews[k])
  {
    if previews != [] && previews[0].id != id {
      FoundPreview(previews[1..], id);
      if FindPreview(previews[1..], id).Some? {
        var k :| 0 <= k < |previews| - 1 && previews[1..][k].id == id
                 && FindPreview(previews[1..], id) == Some(previews[1..][k]);
        assert previews[k + 1].id == id;
      }
    }
  }

  /** Saving in two statements is saving in one, as no row is in both. */
  lemma PersistAppend(rows: seq<ImportRow>, first: seq<PreviewRow>, second: seq<PreviewRow>)
    requires DistinctPreviewIds(first + second)
    ensures PersistedRows(PersistedRows(rows, first), second) == PersistedRows(rows, first + second)
  {
    forall k | 0 <= k < |rows|
      ensures PersistedRow(PersistedRow(rows[k], first), second) == PersistedRow(rows[k], first + second)
    {
      var id := rows[k].id;
      FindPreviewAppend(first, second, id);
      FoundPreview(first, id);
      FoundPreview(second, id);
      DistinctParts(first, second);
    }
  }

  lemma DistinctParts(first: seq<PreviewRow>, second: seq<PreviewRow>)
    requires DistinctPreviewIds(first + second)
    ensures forall i, j :: 0 <= i < |first| && 0 <= j < |second| ==> first[i].id != second[j].id
  {
    forall i, j | 0 <= i < |first| && 0 <= j < |second| ensures first[i].id != second[j].id {
      assert (first + second)[i].id != (first + second)[|first| + j].id;
    }
  }

  /** A row that was applied is out of reach of every later statement. */
  lemma ApplyAppend(rows: seq<ImportRow>, first: seq<Application>, second: seq<Application>, now: int)
    ensures AppliedRows(AppliedRows(rows, first, now), second, now) == AppliedRows(rows, first + second, now)
  {
    forall k | 0 <= k < |rows|
      ensures AppliedRow(AppliedRow(rows[k], first, now), second, now) == AppliedRow(rows[k], first + second, now)
    {
      FindApplicationAppend(first, second, rows[k].id);
    }
  }

  lemma {:induction false} WithTasksAppend(tasks: CleaningTasks.Tasks, first: seq<Stay>, second: seq<Stay>, now: int)
    ensures WithTasks(WithTasks(tasks, first, now), second, now) == WithTasks(tasks, first + second, now)
    decreases |second|
  {
    if second == [] {
      assert first + second == first;
    } else {
      var front := second[..|second| - 1];
      assert (first + second)[..|first + second| - 1] == first + front;
      WithTasksAppend(tasks, first, front, now);
    }
  }

  function Least(a: nat, b: nat): nat {
    if a < b then a else b
  }

  /** The tables. */
  class ImportDatabase {
    var properties: map<string, bool>
    var stays: seq<Stay>
    var revisions: seq<Revision>
    var tasks: CleaningTasks.Tasks
    var batches: map<string, Batch>

    function Tables(): Database
      reads this
    {
      Database(properties, stays, revisions, tasks, batches)
    }

    /** Saves the validation of a batch in statements of a hundred rows. */
    method PersistValidation(batchId: string, previews: seq<PreviewRow>)
      requires batchId in batches && DistinctPreviewIds(previews)
      modifies this`batches
      ensures batches == old(batches)[batchId := old(batches)[batchId].(rows :=
                                        PersistedRows(old(batches)[batchId].rows, previews))]
    {
      ghost var was := batches;
      var offset := 0;
      PersistNothing(batches[batchId].rows);
      while offset < |previews|
        invariant 0 <= offset <= |previews|
        invariant batches == was[batchId := was[batchId].(rows := PersistedRows(was[batchId].rows, previews[..offset]))]
      {
        var end := Least(offset + PERSIST_CHUNK, |previews|);
        var chunk := previews[offset..end];
        assert previews[..offset] + chunk == previews[..end];
        PersistAppend(was[batchId].rows, previews[..offset], chunk);
        batches := batches[batchId := batches[batchId].(rows := PersistedRows(batches[batchId].rows, chunk))];
        offset := end;
      }
      assert previews[..offset] == previews;
    }

    /** The four statements of one chunk. */
    method ApplyChunk(batchId: string, chunk: seq<Application>, actor: string, now: int)
      requires batchId in batches
      modifies this`stays, this`revisions, this`tasks, this`batches
      ensures Tables() == AppliedTables(old(Tables()), batchId, chunk, actor, now)
    {
      stays := stays + StaysOf(chunk);
      revisions := revisions + RevisionsOf(chunk, actor, now);
      tasks := WithTasks(tasks, StaysOf(chunk), now);
      batches := batches[batchId := batches[batchId].(rows := AppliedRows(batches[batchId].rows, chunk, now))];
    }

    /** Creates the stays, revisions and tasks, and marks the rows, in chunks of
        two hundred. */
    method ApplyRows(batchId: string, applications: seq<Application>, actor: string, now: int)
      requires batchId in batches
      modifies this`stays, this`revisions, this`tasks, this`batches
      ensures Tables() == AppliedTables(old(Tables()), batchId, applications, actor, now)
    {
      ghost var was := Tables();
      var offset := 0;
      ApplyNothing(was, batchId, actor, now);
      while offset < |applications|
        invariant 0 <= offset <= |applications| && batchId in batches
        invariant Tables() == AppliedTables(was, batchId, applications[..offset], actor, now)
      {
        var end := Least(offset + CONFIRM_CHUNK, |applications|);
        AppliedTablesAppend(was, batchId, applications[..offset], applications[offset..end], actor, now);
        assert applications[..offset] + applications[offset..end] == applications[..end];
        ApplyChunk(batchId, applications[offset..end], actor, now);
        offset := end;
      }
      assert applications[..offset] == applications;
    }

    /** The claim of the preview version and everything it stands for. */
    method Claim(req: Request, previews: seq<PreviewRow>, applications: seq<Application>, actor: string)
      requires req.batchId in batches && DistinctPreviewIds(previews)
      modifies this
      ensures var was, batch := old(Tables()), old(batches)[req.batchId];
              && Tables().properties == was.properties
              && Tables().stays == was.stays + StaysOf(applications)
              && Tables().revisions == was.revisions + RevisionsOf(applications, actor, req.now)
              && Tables().tasks == WithTasks(was.tasks, StaysOf(applications), req.now)
              && Tables().batches
                 == was.batches[req.batchId := ConfirmedBatch(batch, previews, applications, actor, req.now)]
    {
      ghost var was := batches;
      var batch := batches[req.batchId];
      batches := batches[req.batchId := batch.(status := Confirmed, version := batch.version + 1,
                                               confirmedAt := Some(req.now), confirmedBy := Some(actor))];
      PersistValidation(req.batchId, previews);
      ApplyRows(req.batchId, applications, actor, req.now);
    }

    method Validate(batch: Batch) returns (r: Result<seq<PreviewRow>, ConfirmError>)
      requires DistinctRowIds(batch.rows)
      ensures if exists k :: 0 <= k < |batch.rows| && batch.rows[k].action == RowAction.Update
              then r == Err(Refused(UnsupportedAction))
              else if |Window(ReviewedAll(batch.rows, properties), stays)| > STAY_LIMIT
              then r == Err(Refused(RangeTooLarge))
              else r.Ok? && ValidatedAs(batch.rows, Tables(), r.value) && DistinctPreviewIds(r.value)
                   && |Creating(r.value)| <= |batch.rows|
    {
      var validated := ValidateRows(batch.rows, properties, stays);
      if validated.Err? {
        return Err(Refused(validated.error));
      }
      var rows := validated.value;
      forall k | 0 <= k < |batch.rows| ensures RowValidated(batch.rows, Tables(), rows[k], k) {
      }
      PreviewIds(batch.rows, rows);
      CreatingFits(rows);
      return Ok(rows);
    }

    /** Turns validated rows into stays when all of them are ready. */
    method ConfirmRows(req: Request, rows: seq<PreviewRow>) returns (r: Result<Receipt, ConfirmError>)
      requires req.batchId in batches && req.administrator.Some? && DistinctPreviewIds(rows)
      requires ValidatedAs(batches[req.batchId].rows, Tables(), rows)
      requires |Creating(rows)| <= |req.ids|
      modifies this
      ensures ConfirmsPreview(old(Tables()), req, rows, r, Tables())
    {
      var batch, creating := batches[req.batchId], Creating(rows);
      if exists p :: 0 <= p < |creating| && !IsReady(creating[p]) {
        return Err(RowsNotReady);
      }
      var actor := req.administrator.value;
      Claim(req, rows, Applications(creating, req.ids), actor);
      return Ok(ReceiptFor(batch, rows, actor, req.now));
    }

    /** The request on a batch of this program that is not confirmed. */
    method ConfirmUnconfirmed(req: Request)
      returns (r: Result<Receipt, ConfirmError>, ghost previews: seq<PreviewRow>)
      requires req.administrator.Some? && req.batchId in batches && BatchSound(batches[req.batchId])
      requires var batch := batches[req.batchId];
               && batch.supported && |batch.rows| <= ROW_LIMIT && batch.status != Confirmed
               && |batch.rows| <= |req.ids|
      modifies this
      ensures var was := old(Tables());
              var refusal := BatchRefusal(was, was.batches[req.batchId], req.expectedVersion);
              if refusal.Some? then r == Err(refusal.value) && Tables() == was
              else ConfirmsPreview(was, req, previews, r, Tables())
    {
      var batch := batches[req.batchId];
      previews := [];
      if batch.status != Preview || batch.version != req.expectedVersion {
        return Err(StaleVersion), [];
      }
      if exists k :: 0 <= k < |batch.rows| && !Untouched(batch.rows[k]) {
        return Err(RowsAlreadyApplied), [];
      }
      var validated := Validate(batch);
      if validated.Err? {
        return Err(validated.error), [];
      }
      previews := validated.value;
      r := ConfirmRows(req, validated.value);
    }

    /** Confirms a roster, or answers for one that is confirmed. */
    method Confirm(req: Request) returns (r: Result<Receipt, ConfirmError>, ghost previews: seq<PreviewRow>)
      requires Sound(Tables())
      requires req.batchId in batches ==> |batches[req.batchId].rows| <= |req.ids|
      modifies this
      ensures Confirms(old(Tables()), req, previews, r, Tables())
    {
      previews := [];
      if req.administrator.None? {
        return Err(InvalidAdminAccess), [];
      }
      if req.batchId !in batches {
        return Err(PreviewNotFound), [];
      }
      var batch := batches[req.batchId];
      if !batch.supported || |batch.rows| > ROW_LIMIT {
        return Err(PreviewUnsupported), [];
      }
      if batch.status == Confirmed {
        if req.expectedVersion != batch.version - 1 {
          return Err(BatchChanged), [];
        }
        return ReceiptOf(batch), [];
      }
      assert BatchSound(batch);
      r, previews := ConfirmUnconfirmed(req);
    }
  }

  lemma {:induction false} CreatingFits(rows: seq<PreviewRow>)
    ensures |Creating(rows)| <= |rows|
  {
    if rows != [] {
      CreatingFits(rows[..|rows| - 1]);
    }
  }

  lemma PreviewIds(rows: seq<ImportRow>, previews: seq<PreviewRow>)
    requires SameIds(rows, previews) && DistinctRowIds(rows)
    ensures DistinctPreviewIds(previews)
  {
    forall i, j | 0 <= i < j < |previews| ensures previews[i].id != previews[j].id {
      assert rows[i].id != rows[j].id;
    }
  }

  lemma PersistNothing(rows: seq<ImportRow>)
    ensures PersistedRows(rows, []) == rows
  {
  }

  /** The tables after the statements for these applications. */
  function AppliedTables(db: Database, batchId: string, applications: seq<Application>, actor: string, now: int)
      : Database
    requires batchId in db.batches
  {
    db.(stays := db.stays + StaysOf(applications),
        revisions := db.revisions + RevisionsOf(applications, actor, now),
        tasks := WithTasks(db.tasks, StaysOf(applications), now),
        batches := db.batches[batchId := db.batches[batchId].(rows :=
                                           AppliedRows(db.batches[batchId].rows, applications, now))])
  }

  lemma ApplyNothing(db: Database, batchId: string, actor: string, now: int)
    requires batchId in db.batches
    ensures AppliedTables(db, batchId, [], actor, now) == db
  {
    assert AppliedRows(db.batches[batchId].rows, [], now) == db.batches[batchId].rows;
    assert StaysOf([]) == [] && RevisionsOf([], actor, now) == [];
  }

  /** Two chunks in turn are one. */
  lemma AppliedTablesAppend(db: Database, batchId: string, first: seq<Application>, second: seq<Application>,
                            actor: string, now: int)
    requires batchId in db.batches
    ensures AppliedTables(AppliedTables(db, batchId, first, actor, now), batchId, second, actor, now)
            == AppliedTables(db, batchId, first + second, actor, now)
  {
    assert StaysOf(first + second) == StaysOf(first) + StaysOf(second);
    assert RevisionsOf(first + second, actor, now) == RevisionsOf(first, actor, now) + RevisionsOf(second, actor, now);
    WithTasksAppend(db.tasks, StaysOf(first), StaysOf(second), now);
    ApplyAppend(db.batches[batchId].rows, first, second, now);
  }
}
