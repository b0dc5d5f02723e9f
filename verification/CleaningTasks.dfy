/** Cleaning tasks: one task per departing stay, reconciled with the schedule,
    plus the tasks an administrator adds by hand.

    Every method runs inside one serializable transaction and is therefore one
    atomic step; `Apply` is the same step on values, and `Run` any sequence of
    them by any number of callers. */
module CleaningTasks {
  import opened Wrappers

  type StayId = string

  const DAY_MS := 86_400_000
  const SEOUL_OFFSET_MS := 9 * 60 * 60 * 1000
  const SYNC_LIMIT := 200

  datatype TaskStatus = Planned | InProgress | Completed | Cancelled

  datatype StayStatus = Active | StayCancelled

  /** The two unique columns a task can be found by: the stay it follows, or the
      request that added it. */
  datatype TaskKey = Departure(stayId: StayId) | Requested(requestKey: string)

  datatype Task = Task(
    propertyId: string,
    status: TaskStatus,
    dueAt: int,
    manualDueAt: bool,
    sourceStayRevision: Option<int>,
    version: int,
    note: Option<string>,
    cancelledBySchedule: bool,
    cancellationReason: Option<string>,
    currentSubmissionId: Option<string>,
    completedAt: Option<int>,
    requestHash: Option<(string, int, Option<string>)>)

  type Tasks = map<TaskKey, Task>

  datatype Stay = Stay(
    id: StayId, propertyId: string, currentRevision: int, checkOutAt: int,
    status: StayStatus, propertyActive: bool)

  datatype Counts = Counts(created: nat, updated: nat)

  datatype TaskError =
    | TaskNotFound
    | TaskChanged
    | CleaningBeforeCheckout
    | SyncLimitReached
    | TaskNotReady

  const SCHEDULE_REASON := "the stay was cancelled"

  /** The calendar day in Seoul that a moment falls on. */
  function SeoulDay(at: int): int {
    (at + SEOUL_OFFSET_MS) / DAY_MS
  }

  /** Midnight in Seoul of the day `now` falls on. */
  function CleaningTaskCutoff(now: int): (cutoff: int)
    ensures cutoff <= now < cutoff + DAY_MS && (cutoff + SEOUL_OFFSET_MS) % DAY_MS == 0
    ensures forall at :: cutoff <= at <==> SeoulDay(now) <= SeoulDay(at)
  {
    (now + SEOUL_OFFSET_MS) / DAY_MS * DAY_MS - SEOUL_OFFSET_MS
  }

  predicate Frozen(task: Task) {
    task.status == Completed || (task.status == Cancelled && !task.cancelledBySchedule)
  }

  predicate Editable(task: Task) {
    task.status == Planned || task.status == InProgress
  }

  // ---------------------------------------------------------------- the steps on values

  function NewTask(stay: Stay): Task {
    Task(stay.propertyId, Planned, stay.checkOutAt, false, Some(stay.currentRevision), 1, None,
         false, None, None, None, None)
  }

  /** What one reconciliation makes of the task following a stay. */
  function SyncedTask(task: Option<Task>, stay: Stay, now: int): Option<Task> {
    match task
    case None =>
      if stay.status == Active && CleaningTaskCutoff(now) <= stay.checkOutAt then Some(NewTask(stay)) else None
    case Some(t) =>
      if Frozen(t) then
        task
      else
        var cancelled := stay.status == StayCancelled;
        var status := if cancelled then Cancelled
                      else if !t.cancelledBySchedule then t.status
                      else if t.currentSubmissionId.Some? then InProgress else Planned;
        var dueAt := if t.manualDueAt then t.dueAt else stay.checkOutAt;
        if t.sourceStayRevision == Some(stay.currentRevision) && t.status == status && t.dueAt == dueAt then
          task
        else
          Some(t.(sourceStayRevision := Some(stay.currentRevision), dueAt := dueAt, status := status,
                  cancelledBySchedule := cancelled,
                  cancellationReason := if cancelled then Some(SCHEDULE_REASON) else None,
                  version := t.version + 1))
  }

  function Lookup(tasks: Tasks, key: TaskKey): Option<Task> {
    if key in tasks then Some(tasks[key]) else None
  }

  function Store(tasks: Tasks, key: TaskKey, task: Option<Task>): Tasks {
    match task
    case None => tasks
    case Some(t) => tasks[key := t]
  }

  function Synced(tasks: Tasks, stay: Stay, now: int): Tasks {
    Store(tasks, Departure(stay.id), SyncedTask(Lookup(tasks, Departure(stay.id)), stay, now))
  }

  function SyncedAll(tasks: Tasks, stays: seq<Stay>, now: int): Tasks
    decreases |stays|
  {
    if stays == [] then tasks else SyncedAll(Synced(tasks, stays[0], now), stays[1..], now)
  }

  /** The stays the property-wide reconciliation looks at. */
  predicate Selected(tasks: Tasks, stay: Stay, propertyId: Option<string>, now: int) {
    && (propertyId.None? || propertyId.value == stay.propertyId)
    && (|| (stay.status == Active && CleaningTaskCutoff(now) <= stay.checkOutAt && stay.propertyActive)
        || (Departure(stay.id) in tasks && tasks[Departure(stay.id)].status != Completed))
  }

  function SelectedStays(tasks: Tasks, stays: seq<Stay>, propertyId: Option<string>, now: int): seq<Stay> {
    if stays == [] then []
    else (if Selected(tasks, stays[0], propertyId, now) then [stays[0]] else [])
         + SelectedStays(tasks, stays[1..], propertyId, now)
  }

  /** One request against the task table. Reads of other tables arrive as
      arguments, as those tables stood in the same transaction. */
  datatype Op =
    | Sync(stay: Stay, now: int)
    | SyncProperty(stays: seq<Stay>, scope: Option<string>, now: int)
    | Create(requestKey: string, propertyId: string, dueAt: int, note: Option<string>, propertyOpen: bool)
    | Update(key: TaskKey, expectedVersion: int, dueAt: int, newNote: Option<Option<string>>,
             departure: Option<int>)
    | Cancel(key: TaskKey, expectedVersion: int, reason: string)
    | Start(key: TaskKey, expectedVersion: int, ready: bool, draftId: string)
    | Complete(key: TaskKey, taskVersion: int, draftId: string, completedAt: int)

  /** What a request leaves behind; a refused request leaves the table as it was. */
  function Apply(tasks: Tasks, op: Op): Tasks {
    match op
    case Sync(stay, now) =>
      Synced(tasks, stay, now)
    case SyncProperty(stays, propertyId, now) =>
      var selected := SelectedStays(tasks, stays, propertyId, now);
      if |selected| > SYNC_LIMIT then tasks else SyncedAll(tasks, selected, now)
    case Create(requestKey, propertyId, dueAt, note, propertyOpen) =>
      var key := Requested(requestKey);
      if key in tasks || !propertyOpen then tasks
      else tasks[key := Task(propertyId, Planned, dueAt, true, None, 1, note, false, None, None, None,
                             Some((propertyId, dueAt, note)))]
    case Update(key, expectedVersion, dueAt, newNote, departure) =>
      if !(key in tasks && tasks[key].version == expectedVersion && Editable(tasks[key])) then tasks
      else if departure.Some? && dueAt < departure.value then tasks
      else tasks[key := tasks[key].(dueAt := dueAt, manualDueAt := true,
                                    note := if newNote.Some? then newNote.value else tasks[key].note,
                                    version := expectedVersion + 1)]
    case Cancel(key, expectedVersion, reason) =>
      if !(key in tasks && tasks[key].version == expectedVersion && Editable(tasks[key])) then tasks
      else tasks[key := tasks[key].(status := Cancelled, cancelledBySchedule := false,
                                    cancellationReason := Some(reason), version := expectedVersion + 1)]
    case Start(key, expectedVersion, ready, draftId) =>
      if !(key in tasks && tasks[key].version == expectedVersion && Editable(tasks[key]) && ready) then tasks
      else tasks[key := tasks[key].(status := InProgress, currentSubmissionId := Some(draftId),
                                    version := expectedVersion + 1)]
    case Complete(key, taskVersion, draftId, completedAt) =>
      if !(&& key in tasks && tasks[key].version == taskVersion && tasks[key].status == InProgress
           && tasks[key].currentSubmissionId == Some(draftId)) then tasks
      else tasks[key := tasks[key].(status := Completed, completedAt := Some(completedAt),
                                    version := taskVersion + 1)]
  }

  function Run(tasks: Tasks, ops: seq<Op>): Tasks
    decreases |ops|
  {
    if ops == [] then tasks else Run(Apply(tasks, ops[0]), ops[1..])
  }

  // ---------------------------------------------------------------- the services

  lemma SyncedNext(tasks: Tasks, stays: seq<Stay>, now: int, i: nat)
    requires i < |stays|
    ensures SyncedAll(tasks, stays[i..], now) == SyncedAll(Synced(tasks, stays[i], now), stays[i + 1..], now)
  {
    assert stays[i..][1..] == stays[i + 1..];
  }

  class CleaningTaskTable {
    var tasks: Tasks

    constructor ()
      ensures tasks == map[]
    {
      tasks := map[];
    }

    /** Called inside the reservation's own write transaction. */
    method SyncCleaningTaskForStay(stay: Stay, now: int) returns (counts: Counts)
      modifies this
      ensures tasks == Synced(old(tasks), stay, now)
      ensures counts.created == |tasks| - |old(tasks)|
      ensures counts.created + counts.updated == if tasks == old(tasks) then 0 else 1
      ensures Departure(stay.id) !in old(tasks) ==>
                (counts.created == 1 <==> stay.status == Active && SeoulDay(now) <= SeoulDay(stay.checkOutAt))
    {
      var key := Departure(stay.id);
      if key !in tasks {
        if stay.status != Active || stay.checkOutAt < CleaningTaskCutoff(now) {
          return Counts(0, 0);
        }
        tasks := tasks[key := NewTask(stay)];
        return Counts(1, 0);
      }
      var task := tasks[key];
      if task.status == Completed || (task.status == Cancelled && !task.cancelledBySchedule) {
        return Counts(0, 0);
      }
      var cancelled := stay.status == StayCancelled;
      var status := if cancelled then Cancelled
                    else if task.cancelledBySchedule then
                           (if task.currentSubmissionId.Some? then InProgress else Planned)
                         else task.status;
      var dueAt := if task.manualDueAt then task.dueAt else stay.checkOutAt;
      if task.sourceStayRevision == Some(stay.currentRevision) && task.status == status && task.dueAt == dueAt {
        return Counts(0, 0);
      }
      var updated := task.(sourceStayRevision := Some(stay.currentRevision), dueAt := dueAt, status := status,
                           cancelledBySchedule := cancelled,
                           cancellationReason := if cancelled then Some(SCHEDULE_REASON) else None,
                           version := task.version + 1);
      tasks := tasks[key := updated];
      assert tasks[key] != old(tasks)[key];
      assert tasks.Keys == old(tasks).Keys;
      assert |tasks| == |tasks.Keys| && |old(tasks)| == |old(tasks).Keys|;
      return Counts(0, 1);
    }

    method SyncPropertyCleaningTasks(stays: seq<Stay>, propertyId: Option<string>, now: int)
      returns (r: Result<Counts, TaskError>)
      modifies this
      ensures tasks == Apply(old(tasks), SyncProperty(stays, propertyId, now))
      ensures r.Err? <==> |SelectedStays(old(tasks), stays, propertyId, now)| > SYNC_LIMIT
      ensures r.Err? ==> r.error == SyncLimitReached
      ensures r.Ok? ==> r.value.created == |tasks| - |old(tasks)|
    {
      var selected := SelectedStays(tasks, stays, propertyId, now);
      if |selected| > SYNC_LIMIT {
        return Err(SyncLimitReached);
      }
      ghost var final, size := SyncedAll(tasks, selected, now), |tasks|;
      var total := Counts(0, 0);
      var i := 0;
      while i < |selected|
        invariant 0 <= i <= |selected|
        invariant SyncedAll(tasks, selected[i..], now) == final
        invariant total.created == |tasks| - size
      {
        SyncedNext(tasks, selected, now, i);
        var result := SyncCleaningTaskForStay(selected[i], now);
        total := Counts(total.created + result.created, total.updated + result.updated);
        i := i + 1;
      }
      return Ok(total);
    }

    method Create(requestKey: string, propertyId: string, dueAt: int, note: Option<string>, propertyOpen: bool)
      returns (r: Result<Task, TaskError>)
      modifies this
      ensures tasks == Apply(old(tasks), Op.Create(requestKey, propertyId, dueAt, note, propertyOpen))
      ensures r.Ok? ==> Requested(requestKey) in tasks && r.value == tasks[Requested(requestKey)]
      ensures r.Ok? && Requested(requestKey) in old(tasks) ==> r.value.requestHash == Some((propertyId, dueAt, note))
      ensures r.Err? ==> r.error == if Requested(requestKey) in old(tasks) then TaskChanged else TaskNotReady
      ensures r.Ok? <==> if Requested(requestKey) in old(tasks)
                         then old(tasks)[Requested(requestKey)].requestHash == Some((propertyId, dueAt, note))
                         else propertyOpen
    {
      var key := Requested(requestKey);
      var requestHash := Some((propertyId, dueAt, note));
      if key in tasks {
        if tasks[key].requestHash != requestHash {
          return Err(TaskChanged);
        }
        return Ok(tasks[key]);
      }
      if !propertyOpen {
        return Err(TaskNotReady);
      }
      tasks := tasks[key := Task(propertyId, Planned, dueAt, true, None, 1, note, false, None, None, None,
                                 requestHash)];
      return Ok(tasks[key]);
    }

    method Update(key: TaskKey, expectedVersion: int, dueAt: int, newNote: Option<Option<string>>,
                  departure: Option<int>)
      returns (r: Result<Task, TaskError>)
      modifies this
      ensures tasks == Apply(old(tasks), Op.Update(key, expectedVersion, dueAt, newNote, departure))
      ensures r.Ok? <==> tasks != old(tasks)
      ensures r.Ok? ==> key in tasks && r.value == tasks[key]
      ensures r == Err(TaskNotFound) <==> key !in tasks
      ensures r == Err(CleaningBeforeCheckout) ==> departure.Some? && dueAt < departure.value
      ensures r.Err? ==> r.error in {TaskNotFound, TaskChanged, CleaningBeforeCheckout}
    {
      if key !in tasks {
        return Err(TaskNotFound);
      }
      var task := tasks[key];
      if task.version != expectedVersion || (task.status != Planned && task.status != InProgress) {
        return Err(TaskChanged);
      }
      if departure.Some? && dueAt < departure.value {
        return Err(CleaningBeforeCheckout);
      }
      var updated := task.(dueAt := dueAt, manualDueAt := true, version := task.version + 1);
      if newNote.Some? {
        updated := updated.(note := newNote.value);
      }
      tasks := tasks[key := updated];
      assert tasks[key] != old(tasks)[key];
      return Ok(updated);
    }

    /** Cancelling twice with the same reason and expected version returns the
        receipt of the first call. */
    method Cancel(key: TaskKey, expectedVersion: int, reason: string) returns (r: Result<Task, TaskError>)
      modifies this
      ensures tasks == Apply(old(tasks), Op.Cancel(key, expectedVersion, reason))
      ensures r.Ok? ==> && key in tasks && r.value == tasks[key]
                        && r.value.version == expectedVersion + 1 && r.value.cancellationReason == Some(reason)
                        && Frozen(r.value)
      ensures r == Err(TaskNotFound) <==> key !in old(tasks)
      ensures r.Err? ==> tasks == old(tasks) && r.error in {TaskNotFound, TaskChanged}
    {
      if key !in tasks {
        return Err(TaskNotFound);
      }
      var task := tasks[key];
      if && task.status == Cancelled && !task.cancelledBySchedule
         && task.version == expectedVersion + 1 && task.cancellationReason == Some(reason) {
        return Ok(task);
      }
      if task.version != expectedVersion || (task.status != Planned && task.status != InProgress) {
        return Err(TaskChanged);
      }
      tasks := tasks[key := task.(status := Cancelled, cancelledBySchedule := false,
                                  cancellationReason := Some(reason), version := task.version + 1)];
      return Ok(tasks[key]);
    }

    /** `ready` is `canStart` together with the property being unoccupied; the
        draft is the one the draft service opens or resumes for this task. */
    method Start(key: TaskKey, expectedVersion: int, ready: bool, draftId: string)
      returns (r: Result<string, TaskError>)
      modifies this
      ensures tasks == Apply(old(tasks), Op.Start(key, expectedVersion, ready, draftId))
      ensures r.Ok? <==> tasks != old(tasks)
      ensures r.Ok? ==> r.value == draftId
      ensures r.Err? ==> r.error == if key !in tasks then TaskNotFound
                                    else if tasks[key].version != expectedVersion then TaskChanged else TaskNotReady
    {
      if key !in tasks {
        return Err(TaskNotFound);
      }
      var task := tasks[key];
      if task.version != expectedVersion {
        return Err(TaskChanged);
      }
      if !ready || !Editable(task) {
        return Err(TaskNotReady);
      }
      tasks := tasks[key := task.(status := InProgress, version := task.version + 1)];
      tasks := tasks[key := tasks[key].(currentSubmissionId := Some(draftId))];
      assert tasks[key] != old(tasks)[key];
      return Ok(draftId);
    }

    /** The write that ends `complete`, after the password context was accepted
        for task version `taskVersion`. */
    method Complete(key: TaskKey, taskVersion: int, draftId: string, completedAt: int)
      returns (r: Result<(), TaskError>)
      modifies this
      ensures tasks == Apply(old(tasks), Op.Complete(key, taskVersion, draftId, completedAt))
      ensures r.Ok? <==> tasks != old(tasks)
      ensures r.Err? ==> r.error == if key !in tasks then TaskNotFound else TaskChanged
    {
      if key !in tasks {
        return Err(TaskNotFound);
      }
      var task := tasks[key];
      if task.currentSubmissionId != Some(draftId) || task.status != InProgress || task.version != taskVersion {
        return Err(TaskChanged);
      }
      tasks := tasks[key := task.(status := Completed, completedAt := Some(completedAt),
                                  version := task.version + 1)];
      assert tasks[key] != old(tasks)[key];
      return Ok(());
    }
  }
}
