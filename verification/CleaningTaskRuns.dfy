/** What any run of requests keeps of the cleaning tasks, and what reconciling with the
    schedule comes to. */
module CleaningTaskRuns {
  import opened Wrappers
  import opened CleaningTasks

  // ---------------------------------------------------------------- what every step keeps

  /** Planned means no check was started and InProgress means one was. */
  predicate Sound(key: TaskKey, task: Task) {
    && (task.status == Planned ==> task.currentSubmissionId.None?)
    && (task.status == InProgress ==> task.currentSubmissionId.Some?)
    && (task.status == Completed <==> task.completedAt.Some?)
    && (task.cancelledBySchedule ==> task.status == Cancelled && key.Departure?)
    && (task.status == Cancelled <==> task.cancellationReason.Some?)
  }

  predicate AllSound(tasks: Tasks) {
    forall key :: key in tasks ==> Sound(key, tasks[key])
  }

  /** How one task may differ between two moments of a run. */
  predicate Evolves(before: Task, after: Task) {
    && before.version <= after.version
    && (before.version == after.version ==> before == after)
    && (Frozen(before) ==> before == after)
    && before.propertyId == after.propertyId
    && (before.currentSubmissionId.Some? ==> after.currentSubmissionId.Some?)
    && (before.manualDueAt ==> after.manualDueAt)
  }

  predicate AllEvolve(before: Tasks, after: Tasks) {
    forall key :: key in before ==> key in after && Evolves(before[key], after[key])
  }

  lemma SyncedKeeps(tasks: Tasks, stay: Stay, now: int)
    requires AllSound(tasks)
    ensures AllSound(Synced(tasks, stay, now))
    ensures AllEvolve(tasks, Synced(tasks, stay, now))
  {
  }

  lemma {:induction false} SyncedAllKeeps(tasks: Tasks, stays: seq<Stay>, now: int)
    requires AllSound(tasks)
    ensures AllSound(SyncedAll(tasks, stays, now))
    ensures AllEvolve(tasks, SyncedAll(tasks, stays, now))
    decreases |stays|
  {
    if stays != [] {
      var next := Synced(tasks, stays[0], now);
      SyncedKeeps(tasks, stays[0], now);
      SyncedAllKeeps(next, stays[1..], now);
    }
  }

  lemma ApplyKeeps(tasks: Tasks, op: Op)
    requires AllSound(tasks)
    ensures AllSound(Apply(tasks, op))
    ensures AllEvolve(tasks, Apply(tasks, op))
  {
    match op
    case Sync(stay, now) => SyncedKeeps(tasks, stay, now);
    case SyncProperty(stays, propertyId, now) =>
      SyncedAllKeeps(tasks, SelectedStays(tasks, stays, propertyId, now), now);
    case _ =>
  }

  /** Over any run: completed tasks and administrator cancellations never change
      again, versions only rise, and a version number names one content. */
  lemma {:induction false} RunKeeps(tasks: Tasks, ops: seq<Op>)
    requires AllSound(tasks)
    ensures AllSound(Run(tasks, ops))
    ensures AllEvolve(tasks, Run(tasks, ops))
    decreases |ops|
  {
    if ops != [] {
      ApplyKeeps(tasks, ops[0]);
      RunKeeps(Apply(tasks, ops[0]), ops[1..]);
    }
  }

  // ---------------------------------------------------------------- reconciliation is idempotent

  /** Reconciling again, then or later, with an unchanged stay does nothing. */
  lemma SyncIsIdempotent(tasks: Tasks, stay: Stay, now: int, later: int)
    requires AllSound(tasks)
    requires now <= later
    ensures Synced(Synced(tasks, stay, now), stay, later) == Synced(tasks, stay, now)
  {
  }

  lemma {:induction false} SyncedAllElsewhere(tasks: Tasks, stays: seq<Stay>, now: int, key: TaskKey)
    requires forall i :: 0 <= i < |stays| ==> Departure(stays[i].id) != key
    ensures Lookup(SyncedAll(tasks, stays, now), key) == Lookup(tasks, key)
    decreases |stays|
  {
    if stays != [] {
      SyncedAllElsewhere(Synced(tasks, stays[0], now), stays[1..], now, key);
    }
  }

  predicate DistinctStays(stays: seq<Stay>) {
    forall i, j :: 0 <= i < j < |stays| ==> stays[i].id != stays[j].id
  }

  /** The loop reconciles every stay it visits exactly as a lone call would. */
  lemma {:induction false} SyncedAllPointwise(tasks: Tasks, stays: seq<Stay>, now: int, i: nat)
    requires DistinctStays(stays) && i < |stays|
    ensures var key := Departure(stays[i].id);
            Lookup(SyncedAll(tasks, stays, now), key) == SyncedTask(Lookup(tasks, key), stays[i], now)
    decreases |stays|
  {
    var next := Synced(tasks, stays[0], now);
    if i == 0 {
      SyncedAllElsewhere(next, stays[1..], now, Departure(stays[0].id));
    } else {
      SyncedAllPointwise(next, stays[1..], now, i - 1);
      assert Lookup(next, Departure(stays[i].id)) == Lookup(tasks, Departure(stays[i].id));
    }
  }

  lemma {:induction false} SelectedStaysSound(tasks: Tasks, stays: seq<Stay>, propertyId: Option<string>, now: int)
    ensures forall s :: s in SelectedStays(tasks, stays, propertyId, now)
                        <==> s in stays && Selected(tasks, s, propertyId, now)
    ensures DistinctStays(stays) ==> DistinctStays(SelectedStays(tasks, stays, propertyId, now))
    decreases |stays|
  {
    if stays != [] {
      SelectedStaysSound(tasks, stays[1..], propertyId, now);
      assert stays == [stays[0]] + stays[1..];
      var rest := SelectedStays(tasks, stays[1..], propertyId, now);
      if DistinctStays(stays) {
        forall i | 0 <= i < |rest| ensures rest[i].id != stays[0].id {
          assert rest[i] in stays[1..];
        }
      }
    }
  }

  lemma VisitedIsSettled(tasks: Tasks, selected: seq<Stay>, now: int, stay: Stay)
    requires AllSound(tasks) && DistinctStays(selected) && stay in selected
    ensures var after := SyncedAll(tasks, selected, now); Synced(after, stay, now) == after
  {
    var key, after := Departure(stay.id), SyncedAll(tasks, selected, now);
    var i :| 0 <= i < |selected| && selected[i] == stay;
    SyncedAllPointwise(tasks, selected, now, i);
    SyncIsIdempotent(tasks, stay, now, now);
    assert Lookup(Synced(tasks, stay, now), key) == Lookup(after, key);
    assert SyncedTask(Lookup(after, key), stay, now) == Lookup(after, key);
  }

  lemma NotVisited(stays: seq<Stay>, selected: seq<Stay>, stay: Stay)
    requires DistinctStays(stays) && stay in stays && stay !in selected
    requires forall s :: s in selected ==> s in stays
    ensures forall i :: 0 <= i < |selected| ==> Departure(selected[i].id) != Departure(stay.id)
  {
    forall i | 0 <= i < |selected| ensures Departure(selected[i].id) != Departure(stay.id) {
      assert selected[i] in stays;
      var a :| 0 <= a < |stays| && stays[a] == selected[i];
      var b :| 0 <= b < |stays| && stays[b] == stay;
    }
  }

  /** After the property-wide reconciliation, a lone reconciliation of any stay
      of the property finds nothing to do -- except to add the task of an
      upcoming stay in a property that is closed, which the sweep leaves out. */
  lemma SyncPropertyLeavesNothing(tasks: Tasks, stays: seq<Stay>, propertyId: Option<string>, now: int, stay: Stay)
    requires AllSound(tasks) && DistinctStays(stays)
    requires |SelectedStays(tasks, stays, propertyId, now)| <= SYNC_LIMIT
    requires stay in stays && (propertyId.None? || propertyId.value == stay.propertyId)
    ensures var after := Apply(tasks, SyncProperty(stays, propertyId, now));
            Synced(after, stay, now) == after
            <==> !(&& Departure(stay.id) !in tasks && stay.status == Active
                   && CleaningTaskCutoff(now) <= stay.checkOutAt && !stay.propertyActive)
  {
    var selected := SelectedStays(tasks, stays, propertyId, now);
    SelectedStaysSound(tasks, stays, propertyId, now);
    if stay in selected {
      VisitedIsSettled(tasks, selected, now, stay);
    } else {
      NotVisited(stays, selected, stay);
      SyncedAllElsewhere(tasks, selected, now, Departure(stay.id));
    }
  }

  // ---------------------------------------------------------------- a schedule cancellation is undone

  /** Requests that do not bring the stay back on the schedule. */
  predicate LeavesStayCancelled(op: Op, stayId: StayId) {
    match op
    case Sync(stay, _) => stay.id == stayId ==> stay.status == StayCancelled
    case SyncProperty(stays, _, _) =>
      forall i :: 0 <= i < |stays| && stays[i].id == stayId ==> stays[i].status == StayCancelled
    case _ => true
  }

  /** The task is cancelled by the schedule and otherwise as it was. */
  predicate HeldBySchedule(tasks: Tasks, stayId: StayId, original: Task) {
    var key := Departure(stayId);
    && key in tasks
    && tasks[key].cancelledBySchedule && tasks[key].status == Cancelled
    && tasks[key].currentSubmissionId == original.currentSubmissionId
    && tasks[key].manualDueAt == original.manualDueAt
    && (original.manualDueAt ==> tasks[key].dueAt == original.dueAt)
    && tasks[key].note == original.note
  }

  lemma {:induction false} SyncedAllHolds(tasks: Tasks, stays: seq<Stay>, now: int, stayId: StayId,
                                          original: Task)
    requires HeldBySchedule(tasks, stayId, original)
    requires forall i :: 0 <= i < |stays| && stays[i].id == stayId ==> stays[i].status == StayCancelled
    ensures HeldBySchedule(SyncedAll(tasks, stays, now), stayId, original)
    decreases |stays|
  {
    if stays != [] {
      SyncedAllHolds(Synced(tasks, stays[0], now), stays[1..], now, stayId, original);
    }
  }

  lemma {:induction false} RunHolds(tasks: Tasks, ops: seq<Op>, stayId: StayId, original: Task)
    requires HeldBySchedule(tasks, stayId, original)
    requires forall i :: 0 <= i < |ops| ==> LeavesStayCancelled(ops[i], stayId)
    ensures HeldBySchedule(Run(tasks, ops), stayId, original)
    decreases |ops|
  {
    if ops != [] {
      match ops[0] {
        case SyncProperty(stays, propertyId, now) =>
          SelectedStaysSound(tasks, stays, propertyId, now);
          var selected := SelectedStays(tasks, stays, propertyId, now);
          forall i | 0 <= i < |selected| && selected[i].id == stayId
            ensures selected[i].status == StayCancelled
          {
            assert selected[i] in stays;
          }
          SyncedAllHolds(tasks, selected, now, stayId, original);
        case _ =>
      }
      RunHolds(Apply(tasks, ops[0]), ops[1..], stayId, original);
    }
  }

  /** Cancel a stay, let anything happen that does not restore it, then restore
      it: the task is back in the status it had, with the same submission, note
      and -- if an administrator had set one -- due time. */
  lemma CancelThenRestoreReturns(tasks: Tasks, gone: Stay, back: Stay, between: seq<Op>,
                                                    now: int, later: int)
    requires AllSound(tasks)
    requires gone.id == back.id && gone.status == StayCancelled && back.status == Active
    requires Departure(gone.id) in tasks && Editable(tasks[Departure(gone.id)])
    requires forall i :: 0 <= i < |between| ==> LeavesStayCancelled(between[i], gone.id)
    ensures var key := Departure(gone.id);
            var cancelled := Synced(tasks, gone, now);
            var restored := Synced(Run(cancelled, between), back, later);
            && cancelled[key].status == Cancelled
            && key in restored
            && restored[key].status == tasks[key].status
            && restored[key].currentSubmissionId == tasks[key].currentSubmissionId
            && !restored[key].cancelledBySchedule
            && restored[key].note == tasks[key].note
            && restored[key].dueAt == (if tasks[key].manualDueAt then tasks[key].dueAt else back.checkOutAt)
  {
    var key := Departure(gone.id);
    RunHolds(Synced(tasks, gone, now), between, gone.id, tasks[key]);
  }
}
