/** Runs: administrators confirming rosters and editing stays, in any order. */
module ImportRuns {
  import opened Wrappers
  import opened RosterPreview
  import opened RosterValidation
  import opened RosterConfirmation
  import Bookings
  import CleaningTasks

  datatype Step =
    | Edit(edit: Bookings.Edit, actor: string, now: int)
    | SetProperty(propertyId: string, active: bool)
    | Confirm(req: Request, previews: seq<PreviewRow>, answer: Result<Receipt, ConfirmError>)

  /** An accepted edit of a stay also adds a revision and reconciles its task. */
  function EditedDatabase(db: Database, edit: Bookings.Edit, actor: string, now: int): Database {
    var stays := Bookings.Apply(db.stays, db.properties, edit);
    if stays == db.stays || !Bookings.Taken(stays, edit.id) then db
    else
      var stay := stays[Bookings.IndexOf(stays, edit.id)];
      db.(stays := stays,
          revisions := db.revisions + [Revision(stay.id, stay.revision, stay, actor, None, now)],
          tasks := CleaningTasks.Synced(db.tasks, Departing(stay), now))
  }

  ghost predicate Next(db: Database, step: Step, after: Database) {
    match step
    case Edit(edit, actor, now) => after == EditedDatabase(db, edit, actor, now)
    case SetProperty(id, active) => after == db.(properties := db.properties[id := active])
    case Confirm(req, previews, answer) => Confirms(db, req, previews, answer, after)
  }

  /** Ids drawn for new stays are not in use. */
  predicate DrawsFreshIds(db: Database, step: Step) {
    step.Confirm? ==> FreshIds(db, step.req.ids)
  }

  lemma EditKeepsTaken(stays: seq<Stay>, properties: map<string, bool>, edit: Bookings.Edit, id: string)
    requires Bookings.Taken(stays, id)
    ensures Bookings.Taken(Bookings.Apply(stays, properties, edit), id)
  {
    var after := Bookings.Apply(stays, properties, edit);
    var i :| 0 <= i < |stays| && stays[i].id == id;
    assert after[i].id == id;
  }

  lemma EditKeepsSound(db: Database, edit: Bookings.Edit, actor: string, now: int)
    requires Sound(db)
    ensures Sound(EditedDatabase(db, edit, actor, now))
  {
    Bookings.ApplyKeeps(db.stays, db.properties, edit);
    var after := EditedDatabase(db, edit, actor, now);
    forall id: string | CleaningTasks.Departure(id) in after.tasks ensures Bookings.Taken(after.stays, id) {
      if CleaningTasks.Departure(id) in db.tasks {
        EditKeepsTaken(db.stays, db.properties, edit, id);
      }
    }
  }

  /** A batch that was confirmed stays as it was confirmed. */
  predicate KeepsConfirmed(db: Database, after: Database) {
    forall id :: id in db.batches && db.batches[id].status == Confirmed ==>
      id in after.batches && after.batches[id] == db.batches[id]
  }

  lemma ConfirmKeepsConfirmed(db: Database, req: Request, previews: seq<PreviewRow>,
                              answer: Result<Receipt, ConfirmError>, after: Database)
    requires Confirms(db, req, previews, answer, after)
    ensures KeepsConfirmed(db, after)
  {
    if after != db {
      ConfirmedEntry(db, req, previews, after);
      assert after.batches.Keys == db.batches.Keys;
    }
  }

  lemma StepKeeps(db: Database, step: Step, after: Database)
    requires Sound(db) && DrawsFreshIds(db, step) && Next(db, step, after)
    ensures Sound(after) && KeepsConfirmed(db, after)
  {
    match step
    case Edit(edit, actor, now) => EditKeepsSound(db, edit, actor, now);
    case SetProperty(_, _) =>
    case Confirm(req, previews, answer) =>
      ConfirmKeepsSound(db, req, previews, answer, after);
      ConfirmKeepsConfirmed(db, req, previews, answer, after);
  }

  ghost predicate Run(states: seq<Database>, steps: seq<Step>) {
    && |states| == |steps| + 1
    && forall i {:trigger steps[i]} :: 0 <= i < |steps| ==>
         DrawsFreshIds(states[i], steps[i]) && Next(states[i], steps[i], states[i + 1])
  }

  lemma KeepsOn(states: seq<Database>, steps: seq<Step>, n: nat)
    requires Run(states, steps) && n < |steps| && Sound(states[n])
    ensures Sound(states[n + 1]) && KeepsConfirmed(states[n], states[n + 1])
  {
    assert Next(states[n], steps[n], states[n + 1]);
    StepKeeps(states[n], steps[n], states[n + 1]);
  }

  /** Whatever is confirmed, added, moved, cancelled or restored, at no moment of
      a run does a property hold two active stays at once. */
  lemma {:induction false} RunKeeps(states: seq<Database>, steps: seq<Step>, n: nat)
    requires Run(states, steps) && Sound(states[0]) && n <= |steps|
    ensures Sound(states[n]) && Bookings.NoDoubleBooking(states[n].stays)
  {
    if n > 0 {
      RunKeeps(states, steps, n - 1);
      KeepsOn(states, steps, n - 1);
    }
  }

  lemma {:induction false} RunKeepsConfirmed(states: seq<Database>, steps: seq<Step>, m: nat, n: nat)
    requires Run(states, steps) && Sound(states[0]) && m <= n <= |steps|
    ensures KeepsConfirmed(states[m], states[n])
  {
    if m < n {
      RunKeepsConfirmed(states, steps, m, n - 1);
      RunKeeps(states, steps, n - 1);
      KeepsOn(states, steps, n - 1);
    }
  }

  predicate Reconfirmable(batch: Batch, expectedVersion: int) {
    && batch.status == Confirmed && batch.version == expectedVersion + 1
    && batch.supported && |batch.rows| <= ROW_LIMIT
  }

  lemma ConfirmedAfter(db: Database, req: Request, previews: seq<PreviewRow>, after: Database)
    requires Succeeds(db, req, previews, after) && BatchSound(db.batches[req.batchId])
    ensures req.batchId in after.batches
    ensures var batch := after.batches[req.batchId];
            Reconfirmable(batch, req.expectedVersion)
  {
    AcceptedBatch(db, db.batches[req.batchId], req.expectedVersion);
    ConfirmedEntry(db, req, previews, after);
  }

  lemma FirstConfirmation(db: Database, req: Request, previews: seq<PreviewRow>, answer: Result<Receipt, ConfirmError>,
                          after: Database)
    requires Confirms(db, req, previews, answer, after) && answer.Ok?
    requires req.batchId in db.batches && db.batches[req.batchId].status == Preview
    requires BatchSound(db.batches[req.batchId])
    ensures req.batchId in after.batches && Reconfirmable(after.batches[req.batchId], req.expectedVersion)
    ensures ReceiptOf(after.batches[req.batchId]) == answer
  {
    SuccessMeans(db, req, previews, answer, after);
    ConfirmReadsBack(db, req, previews, after);
    ConfirmedAfter(db, req, previews, after);
  }

  /** A confirmation repeated by an administrator at any later moment of a run
      changes nothing and is answered with the receipt of the first. */
  lemma RepeatedConfirmSameReceipt(states: seq<Database>, steps: seq<Step>, m: nat, n: nat)
    requires Run(states, steps) && Sound(states[0]) && m < n < |steps|
    requires steps[m].Confirm? && steps[n].Confirm?
    requires var first, again := steps[m].req, steps[n].req;
             && first.batchId == again.batchId && first.expectedVersion == again.expectedVersion
             && again.administrator.Some?
    requires var first := steps[m].req;
             first.batchId in states[m].batches && states[m].batches[first.batchId].status == Preview
    requires steps[m].answer.Ok?
    ensures steps[n].answer == steps[m].answer && states[n + 1] == states[n]
  {
    var first, previews := steps[m].req, steps[m].previews;
    RunKeeps(states, steps, m);
    assert Next(states[m], steps[m], states[m + 1]) && Next(states[n], steps[n], states[n + 1]);
    assert BatchSound(states[m].batches[first.batchId]);
    FirstConfirmation(states[m], first, previews, steps[m].answer, states[m + 1]);
    RunKeepsConfirmed(states, steps, m + 1, n);
    RepeatAnswer(states[m + 1], states[n], steps[n], states[n + 1]);
  }

  lemma RepeatAnswer(confirmed: Database, db: Database, step: Step, after: Database)
    requires step.Confirm? && step.req.administrator.Some? && step.req.batchId in confirmed.batches
    requires KeepsConfirmed(confirmed, db) && Next(db, step, after)
    requires var batch := confirmed.batches[step.req.batchId];
             Reconfirmable(batch, step.req.expectedVersion) && ReceiptOf(batch).Ok?
    ensures step.answer == ReceiptOf(confirmed.batches[step.req.batchId]) && after == db
  {
  }
}
