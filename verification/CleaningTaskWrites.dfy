/** What each request leaves in the task table, column by column. */
module CleaningTaskWrites {
  import opened Wrappers
  import opened CleaningTasks
  import opened CleaningTaskRuns

  lemma SeoulDayMeans(at: int, day: int)
    ensures SeoulDay(at) == day <==> day * 86_400_000 <= at + 32_400_000 < (day + 1) * 86_400_000
  {
  }

  /** At most the task with this key is written. */
  ghost predicate OnlyTouches(tasks: Tasks, after: Tasks, key: TaskKey) {
    forall other :: other != key ==> Lookup(after, other) == Lookup(tasks, other)
  }

  /** The columns that no request changes once the task exists. */
  predicate SameOrigin(before: Task, after: Task) {
    before.propertyId == after.propertyId && before.requestHash == after.requestHash
  }

  /** A task that nobody has worked on yet. */
  predicate Untouched(task: Task) {
    && task.status == Planned && task.version == 1 && !task.cancelledBySchedule
    && task.cancellationReason.None? && task.currentSubmissionId.None? && task.completedAt.None?
  }

  // ---------------------------------------------------------------- reconciling

  /** A stay without a task gets one exactly if it is active and departs on today's day in
      Seoul or later; the task is for its house and due at its departure. */
  lemma SyncAddsIff(tasks: Tasks, stay: Stay, now: int)
    requires Departure(stay.id) !in tasks
    ensures var key, after := Departure(stay.id), Synced(tasks, stay, now);
            && OnlyTouches(tasks, after, key)
            && (key in after <==> stay.status == Active && SeoulDay(now) <= SeoulDay(stay.checkOutAt))
            && (key in after ==>
                  && Untouched(after[key]) && after[key].propertyId == stay.propertyId
                  && after[key].dueAt == stay.checkOutAt && !after[key].manualDueAt && after[key].note.None?
                  && after[key].sourceStayRevision == Some(stay.currentRevision) && after[key].requestHash.None?)
  {
  }

  /** A task that still follows its stay is cancelled with it and comes back with it, is due
      at the departure unless an administrator chose a time, and keeps everything else. */
  lemma SyncFollows(tasks: Tasks, stay: Stay, now: int)
    requires Departure(stay.id) in tasks
    ensures var key, after := Departure(stay.id), Synced(tasks, stay, now);
            && OnlyTouches(tasks, after, key) && key in after
            && (var was, task := tasks[key], after[key];
                if was.status == Completed || (was.status == Cancelled && !was.cancelledBySchedule) then task == was
                else
                  && SameOrigin(was, task) && task.note == was.note && task.manualDueAt == was.manualDueAt
                  && task.currentSubmissionId == was.currentSubmissionId && task.completedAt == was.completedAt
                  && task.sourceStayRevision == Some(stay.currentRevision)
                  && task.dueAt == (if was.manualDueAt then was.dueAt else stay.checkOutAt)
                  && (stay.status == StayCancelled ==> task.status == Cancelled)
                  && (stay.status == Active && !was.cancelledBySchedule ==> task.status == was.status)
                  && (stay.status == Active && was.cancelledBySchedule ==>
                        task.status == if was.currentSubmissionId.Some? then InProgress else Planned)
                  && (task == was || (&& task.version == was.version + 1
                                      && task.cancelledBySchedule == (stay.status == StayCancelled)
                                      && (task.cancellationReason.Some? <==> stay.status == StayCancelled))))
  {
  }

  /** The property-wide reconciliation treats each stay of the property as a lone one would,
      except that it adds no task for a closed property, and touches nothing else. */
  lemma SyncPropertyMeans(tasks: Tasks, stays: seq<Stay>, propertyId: Option<string>, now: int, stay: Stay)
    requires DistinctStays(stays) && |SelectedStays(tasks, stays, propertyId, now)| <= SYNC_LIMIT && stay in stays
    ensures var key, after := Departure(stay.id), Apply(tasks, SyncProperty(stays, propertyId, now));
            Lookup(after, key)
            == if || (propertyId.Some? && propertyId.value != stay.propertyId)
                  || (key !in tasks && !stay.propertyActive)
               then Lookup(tasks, key) else Lookup(Synced(tasks, stay, now), key)
  {
    var selected := SelectedStays(tasks, stays, propertyId, now);
    SelectedStaysSound(tasks, stays, propertyId, now);
    if stay in selected {
      var i :| 0 <= i < |selected| && selected[i] == stay;
      SyncedAllPointwise(tasks, selected, now, i);
    } else {
      NotVisited(stays, selected, stay);
      SyncedAllElsewhere(tasks, selected, now, Departure(stay.id));
    }
  }

  lemma SyncPropertyLeavesOthers(tasks: Tasks, stays: seq<Stay>, propertyId: Option<string>, now: int, key: TaskKey)
    requires forall i :: 0 <= i < |stays| ==> Departure(stays[i].id) != key
    ensures Lookup(Apply(tasks, SyncProperty(stays, propertyId, now)), key) == Lookup(tasks, key)
  {
    var selected := SelectedStays(tasks, stays, propertyId, now);
    SelectedStaysSound(tasks, stays, propertyId, now);
    forall i | 0 <= i < |selected| ensures Departure(selected[i].id) != key {
      assert selected[i] in stays;
    }
    SyncedAllElsewhere(tasks, selected, now, key);
  }

  // ---------------------------------------------------------------- requests by hand

  /** A new request in an open property adds what it asks for; anything else adds nothing. */
  lemma CreateMeans(tasks: Tasks, requestKey: string, propertyId: string, dueAt: int, note: Option<string>,
                    propertyOpen: bool)
    ensures var key, after := Requested(requestKey),
                              Apply(tasks, Create(requestKey, propertyId, dueAt, note, propertyOpen));
            && OnlyTouches(tasks, after, key)
            && (key in tasks || !propertyOpen ==> after == tasks)
            && (key !in tasks && propertyOpen ==>
                  && key in after && Untouched(after[key]) && after[key].propertyId == propertyId
                  && after[key].dueAt == dueAt && after[key].manualDueAt && after[key].note == note
                  && after[key].sourceStayRevision.None?
                  && after[key].requestHash == Some((propertyId, dueAt, note)))
  {
  }

  /** The task may still be changed, and its administrator has seen it as it is. */
  predicate Changeable(tasks: Tasks, key: TaskKey, expectedVersion: int) {
    && key in tasks && tasks[key].version == expectedVersion
    && (tasks[key].status == Planned || tasks[key].status == InProgress)
  }

  /** The time and the note become those asked for, and only they. */
  lemma UpdateMeans(tasks: Tasks, key: TaskKey, expectedVersion: int, dueAt: int, newNote: Option<Option<string>>,
                    departure: Option<int>)
    ensures var after := Apply(tasks, Update(key, expectedVersion, dueAt, newNote, departure));
            && OnlyTouches(tasks, after, key)
            && (!Changeable(tasks, key, expectedVersion) || (departure.Some? && dueAt < departure.value) ==>
                  after == tasks)
            && (Changeable(tasks, key, expectedVersion) && (departure.Some? ==> departure.value <= dueAt) ==>
                  && key in after && after[key].dueAt == dueAt && after[key].manualDueAt
                  && after[key].note == (if newNote.Some? then newNote.value else tasks[key].note)
                  && after[key].version == tasks[key].version + 1
                  && after[key].(dueAt := tasks[key].dueAt, manualDueAt := tasks[key].manualDueAt,
                                 note := tasks[key].note, version := tasks[key].version) == tasks[key])
  {
  }

  /** The task is cancelled for the given reason, by hand and not by the schedule. */
  lemma CancelMeans(tasks: Tasks, key: TaskKey, expectedVersion: int, reason: string)
    ensures var after := Apply(tasks, Cancel(key, expectedVersion, reason));
            && OnlyTouches(tasks, after, key)
            && (!Changeable(tasks, key, expectedVersion) ==> after == tasks)
            && (Changeable(tasks, key, expectedVersion) ==>
                  && key in after && after[key].status == Cancelled && !after[key].cancelledBySchedule
                  && after[key].cancellationReason == Some(reason) && after[key].version == tasks[key].version + 1
                  && after[key].(status := tasks[key].status, cancelledBySchedule := tasks[key].cancelledBySchedule,
                                 cancellationReason := tasks[key].cancellationReason,
                                 version := tasks[key].version) == tasks[key])
  {
  }

  /** A check begins with its checklist, for a room that is ready. */
  lemma StartMeans(tasks: Tasks, key: TaskKey, expectedVersion: int, ready: bool, draftId: string)
    ensures var after := Apply(tasks, Start(key, expectedVersion, ready, draftId));
            && OnlyTouches(tasks, after, key)
            && (!Changeable(tasks, key, expectedVersion) || !ready ==> after == tasks)
            && (Changeable(tasks, key, expectedVersion) && ready ==>
                  && key in after && after[key].status == InProgress
                  && after[key].currentSubmissionId == Some(draftId) && after[key].version == tasks[key].version + 1
                  && after[key].(status := tasks[key].status, currentSubmissionId := tasks[key].currentSubmissionId,
                                 version := tasks[key].version) == tasks[key])
  {
  }

  /** A check ends under the very checklist and version that were accepted. */
  lemma CompleteMeans(tasks: Tasks, key: TaskKey, taskVersion: int, draftId: string, completedAt: int)
    ensures var after := Apply(tasks, Complete(key, taskVersion, draftId, completedAt));
            var accepted := && key in tasks && tasks[key].status == InProgress && tasks[key].version == taskVersion
                            && tasks[key].currentSubmissionId == Some(draftId);
            && OnlyTouches(tasks, after, key)
            && (!accepted ==> after == tasks)
            && (accepted ==>
                  && key in after && after[key].status == Completed && after[key].completedAt == Some(completedAt)
                  && after[key].version == taskVersion + 1
                  && after[key].(status := InProgress, completedAt := tasks[key].completedAt,
                                 version := taskVersion) == tasks[key])
  {
  }
}
