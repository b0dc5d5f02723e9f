/** The password a worker sets when a cleaning task is completed: which one is shown,
    what blocks it, and what a completion guarantees of it. */
module TaskAccess {
  import opened Wrappers
  import Access = StayAccess
  import Tasks = CleaningTasks
  import TaskRuns = CleaningTaskRuns

  const MAX_VERSION := 2147483647

  /** The worker of a property and the generation of its staff QR code. */
  datatype Worker = Worker(staff: Option<string>, qr: Option<string>)

  /** The tables. Vacancy codes belong to the settings of a property. */
  datatype Site = Site(
    access: Access.World, vacancy: map<string, string>, workers: map<string, Worker>,
    tasks: Tasks.Tasks, completions: map<Tasks.TaskKey, Completion>)

  datatype Kind = NextStay | Vacancy | FixedRoom

  datatype Obstacle =
    | NotYet | ReservationCancelled | Occupied | NoSettings | ArrivalPassed
    | NoFixedCode | NextNotPrepared | NoVacancyCode

  /** Versions and identities, never codes. The digest is injective. */
  datatype Fingerprint = Fingerprint(
    task: Tasks.TaskKey, taskVersion: int, dueAt: int, departingRevision: Option<int>, departingCheckOutAt: Option<int>,
    settingsVersion: int, worker: Worker, kind: Kind, targetId: Option<string>, targetRevision: Option<int>,
    targetCodeVersion: Option<int>, nextCheckInAt: Option<int>, nextCheckOutAt: Option<int>)

  /** What the worker gets to see; a task with an obstacle shows no usable code. */
  datatype Shown = Shown(fingerprint: Fingerprint, kind: Kind, obstacle: Option<Obstacle>, code: Option<string>,
                         requiresChange: bool)

  datatype Completion = Completion(fingerprint: Fingerprint, submissionId: string, passwordChanged: bool,
                                   confirmedAt: int)

  datatype TaskAccessError =
    | InvalidTaskAccess | Changed | ConfirmationRequired | AfterPhotoRequired | PasswordBlocked
    | PasswordConfirmationRequired

  // ---------------------------------------------------------------- what is read

  function Find<K, V>(m: map<K, V>, key: K): Option<V> {
    if key in m then Some(m[key]) else None
  }

  function DepartingOf(site: Site, key: Tasks.TaskKey): Option<Access.Stay> {
    if key.Departure? then Find(site.access.stays, key.stayId) else None
  }

  /** The next arrival, and the neighbours of that reservation, as the queries of the
      transaction returned them. */
  datatype Query = Query(next: Option<string>, neighbors: Access.Neighbors)

  /** From when on an arrival is the next one. */
  function VacantFrom(site: Site, key: Tasks.TaskKey): int
    requires key in site.tasks
  {
    var departing := DepartingOf(site, key);
    if departing.Some? then departing.value.checkOutAt else site.tasks[key].dueAt
  }

  predicate Arrives(site: Site, key: Tasks.TaskKey, id: string)
    requires key in site.tasks
  {
    && id in site.access.stays && site.access.stays[id].active
    && site.access.stays[id].propertyId == site.tasks[key].propertyId
    && (key.Departure? ==> id != key.stayId)
    && VacantFrom(site, key) <= site.access.stays[id].checkInAt
  }

  ghost predicate Answers(site: Site, key: Tasks.TaskKey, q: Query)
    requires key in site.tasks
  {
    match q.next
    case None => forall id :: !Arrives(site, key, id)
    case Some(next) =>
      && Arrives(site, key, next)
      && (forall id :: Arrives(site, key, id) ==> site.access.stays[next].checkInAt <= site.access.stays[id].checkInAt)
      && Access.AreNeighbors(site.access, site.access.stays[next], q.neighbors)
  }

  /** What the foreign keys of the tables promise. */
  predicate Resolves(site: Site, q: Query) {
    q.next.Some? ==> q.next.value in site.access.stays
  }

  function NextOf(site: Site, q: Query): Option<Access.Stay> {
    if q.next.Some? then Find(site.access.stays, q.next.value) else None
  }

  /** Somebody stays in the property right now. */
  predicate InUse(site: Site, propertyId: string, now: int) {
    exists id :: && id in site.access.stays && site.access.stays[id].active
                 && site.access.stays[id].propertyId == propertyId
                 && site.access.stays[id].checkInAt <= now < site.access.stays[id].checkOutAt
  }

  function WorkerOf(site: Site, propertyId: string): Worker {
    if propertyId in site.workers then site.workers[propertyId] else Worker(None, None)
  }

  function SettingsAt(site: Site, propertyId: string): Option<Access.Settings> {
    Find(site.access.settings, propertyId)
  }

  /** The code of a reservation is prepared and may be used. */
  predicate Usable(w: Access.World, id: string, n: Access.Neighbors, now: int)
    requires id in w.stays
  {
    Access.IsPrepared(w, id, n) && Access.BlockedReason(w, w.stays[id], now).None? && w.codes[id].code != ""
  }

  // ---------------------------------------------------------------- what is shown

  function ScheduleObstacle(site: Site, key: Tasks.TaskKey, q: Query, now: int): Option<Obstacle>
    requires key in site.tasks
  {
    var task, departing, next := site.tasks[key], DepartingOf(site, key), NextOf(site, q);
    var settings := SettingsAt(site, task.propertyId);
    if now < task.dueAt || (departing.Some? && now < departing.value.checkOutAt) then Some(NotYet)
    else if departing.Some? && !departing.value.active then Some(ReservationCancelled)
    else if InUse(site, task.propertyId, now) then Some(Occupied)
    else if settings.None? then Some(NoSettings)
    else if Access.IsRotating(settings) && next.Some? && next.value.checkInAt <= now then Some(ArrivalPassed)
    else None
  }

  function KindOf(site: Site, propertyId: string, q: Query): Kind {
    if !Access.IsRotating(SettingsAt(site, propertyId)) then FixedRoom
    else if q.next.Some? then NextStay else Vacancy
  }

  /** The code for this kind of password, or what stands in its way. */
  function CodeFor(site: Site, propertyId: string, q: Query, now: int): Result<Option<string>, Obstacle>
    requires SettingsAt(site, propertyId).Some? && Resolves(site, q)
  {
    match KindOf(site, propertyId, q)
    case FixedRoom =>
      if SettingsAt(site, propertyId).value.fixedCode.None? then Err(NoFixedCode) else Ok(None)
    case NextStay =>
      if Usable(site.access, q.next.value, q.neighbors, now)
      then Ok(Some(site.access.codes[q.next.value].code)) else Err(NextNotPrepared)
    case Vacancy =>
      if propertyId in site.vacancy then Ok(Some(site.vacancy[propertyId])) else Err(NoVacancyCode)
  }

  function FingerprintOf(site: Site, key: Tasks.TaskKey, q: Query): Fingerprint
    requires key in site.tasks
  {
    var task, departing, next := site.tasks[key], DepartingOf(site, key), NextOf(site, q);
    var code := if q.next.Some? then Find(site.access.codes, q.next.value) else None;
    Fingerprint(key, task.version, task.dueAt,
                if departing.Some? then Some(departing.value.revision) else None,
                if departing.Some? then Some(departing.value.checkOutAt) else None,
                Access.SettingsVersion(SettingsAt(site, task.propertyId)), WorkerOf(site, task.propertyId),
                KindOf(site, task.propertyId, q), q.next,
                if next.Some? then Some(next.value.revision) else None,
                if code.Some? then Some(code.value.version) else None,
                if next.Some? then Some(next.value.checkInAt) else None,
                if next.Some? then Some(next.value.checkOutAt) else None)
  }

  function ShownFor(site: Site, key: Tasks.TaskKey, q: Query, now: int): Shown
    requires key in site.tasks && Resolves(site, q)
  {
    var propertyId, schedule := site.tasks[key].propertyId, ScheduleObstacle(site, key, q, now);
    var code := if schedule.Some? then Err(schedule.value) else CodeFor(site, propertyId, q, now);
    Shown(FingerprintOf(site, key, q), KindOf(site, propertyId, q),
          if code.Err? then Some(code.error) else None, if code.Ok? then code.value else None,
          Access.IsRotating(SettingsAt(site, propertyId)))
  }

  predicate Accessible(site: Site, key: Tasks.TaskKey, submissionId: string) {
    && key in site.tasks && site.tasks[key].currentSubmissionId == Some(submissionId)
    && site.tasks[key].status == Tasks.InProgress && site.tasks[key].propertyId in site.access.openProperties
  }

  function Context(site: Site, key: Tasks.TaskKey, submissionId: string, q: Query, now: int)
      : Result<Shown, TaskAccessError>
    requires Resolves(site, q)
  {
    if Accessible(site, key, submissionId) then Ok(ShownFor(site, key, q, now)) else Err(InvalidTaskAccess)
  }

  // ---------------------------------------------------------------- completing

  datatype Confirmation = Confirmation(fingerprint: Fingerprint, guestDeparted: bool, passwordChanged: bool)

  /** A worker submits a checklist, which belongs to a task or to none. */
  datatype Request = Request(task: Option<Tasks.TaskKey>, draftId: string, confirmation: Option<Confirmation>,
                             afterPhoto: bool, q: Query, now: int, completedAt: int)

  function Refusal(site: Site, r: Request): Option<TaskAccessError>
    requires Resolves(site, r.q)
  {
    if r.task.None? then if r.confirmation.Some? then Some(Changed) else None
    else if r.confirmation.None? || !r.confirmation.value.guestDeparted then Some(ConfirmationRequired)
    else if !r.afterPhoto then Some(AfterPhotoRequired)
    else
      var context := Context(site, r.task.value, r.draftId, r.q, r.now);
      if context.Err? then Some(context.error)
      else if context.value.obstacle.Some? then Some(PasswordBlocked)
      else if context.value.fingerprint != r.confirmation.value.fingerprint then Some(Changed)
      else if context.value.requiresChange && !r.confirmation.value.passwordChanged
      then Some(PasswordConfirmationRequired)
      else None
  }

  /** The task is completed and what was confirmed is kept with it. */
  function Completed(site: Site, r: Request): Site
    requires Resolves(site, r.q) && Refusal(site, r).None?
  {
    if r.task.None? then site
    else
      var key := r.task.value;
      site.(tasks := Tasks.Apply(site.tasks, Tasks.Complete(key, site.tasks[key].version, r.draftId, r.completedAt)),
            completions := site.completions[key :=
              Completion(r.confirmation.value.fingerprint, r.draftId,
                         Access.IsRotating(SettingsAt(site, site.tasks[key].propertyId)), r.completedAt)])
  }

  class TaskSite {
    var site: Site

    constructor (site: Site)
      ensures this.site == site
    {
      this.site := site;
    }

    /** Works out what to show, one reason after the other. */
    method ReadContext(key: Tasks.TaskKey, submissionId: string, q: Query, now: int)
      returns (r: Result<Shown, TaskAccessError>)
      requires Resolves(site, q)
      ensures r == Context(site, key, submissionId, q, now)
    {
      if key !in site.tasks {
        return Err(InvalidTaskAccess);
      }
      var task := site.tasks[key];
      if || task.currentSubmissionId != Some(submissionId) || task.status != Tasks.InProgress
         || task.propertyId !in site.access.openProperties {
        return Err(InvalidTaskAccess);
      }
      var settings, departing, next := SettingsAt(site, task.propertyId), DepartingOf(site, key), NextOf(site, q);
      var rotating := settings.Some? && !settings.value.fixed;
      var kind := if rotating then (if next.Some? then NextStay else Vacancy) else FixedRoom;
      var obstacle := None;
      if task.dueAt > now || (departing.Some? && departing.value.checkOutAt > now) {
        obstacle := Some(NotYet);
      } else if departing.Some? && !departing.value.active {
        obstacle := Some(ReservationCancelled);
      } else if InUse(site, task.propertyId, now) {
        obstacle := Some(Occupied);
      } else if settings.None? {
        obstacle := Some(NoSettings);
      } else if rotating && next.Some? && next.value.checkInAt <= now {
        obstacle := Some(ArrivalPassed);
      }
      var code := None;
      if obstacle.None? && settings.Some? {
        if !rotating {
          if settings.value.fixedCode.None? {
            obstacle := Some(NoFixedCode);
          }
        } else if next.Some? {
          if Usable(site.access, q.next.value, q.neighbors, now) {
            code := Some(site.access.codes[q.next.value].code);
          } else {
            obstacle := Some(NextNotPrepared);
          }
        } else if task.propertyId !in site.vacancy {
          obstacle := Some(NoVacancyCode);
        } else {
          code := Some(site.vacancy[task.propertyId]);
        }
      }
      return Ok(Shown(FingerprintOf(site, key, q), kind, obstacle, code, rotating));
    }

    /** Reads the context again and completes the task under what was confirmed. */
    method Complete(request: Request) returns (r: Result<(), TaskAccessError>)
      requires Resolves(site, request.q)
      modifies this
      ensures var refusal := Refusal(old(site), request);
              if refusal.Some? then r == Err(refusal.value) && site == old(site)
              else r.Ok? && site == Completed(old(site), request)
    {
      if request.task.None? {
        if request.confirmation.Some? {
          return Err(Changed);
        }
        return Ok(());
      }
      if request.confirmation.None? || !request.confirmation.value.guestDeparted {
        return Err(ConfirmationRequired);
      }
      if !request.afterPhoto {
        return Err(AfterPhotoRequired);
      }
      var key, confirmation := request.task.value, request.confirmation.value;
      var context := ReadContext(key, request.draftId, request.q, request.now);
      if context.Err? {
        return Err(context.error);
      }
      if context.value.obstacle.Some? {
        return Err(PasswordBlocked);
      }
      if context.value.fingerprint != confirmation.fingerprint {
        return Err(Changed);
      }
      if context.value.requiresChange && !confirmation.passwordChanged {
        return Err(PasswordConfirmationRequired);
      }
      var task := site.tasks[key];
      var completion := Completion(confirmation.fingerprint, request.draftId, context.value.requiresChange,
                                   request.completedAt);
      site := site.(tasks := site.tasks[key := task.(status := Tasks.Completed,
                                                     completedAt := Some(request.completedAt),
                                                     version := task.version + 1)],
                    completions := site.completions[key := completion]);
      return Ok(());
    }
  }

  // ---------------------------------------------------------------- when a task can be completed

  /** The room is free, due, and has a code that may be set. */
  predicate Ready(site: Site, key: Tasks.TaskKey, q: Query, now: int)
    requires key in site.tasks && Resolves(site, q)
  {
    var task, departing := site.tasks[key], DepartingOf(site, key);
    var settings := SettingsAt(site, task.propertyId);
    && task.dueAt <= now && !InUse(site, task.propertyId, now)
    && (departing.Some? ==> departing.value.active && departing.value.checkOutAt <= now)
    && settings.Some?
    && (settings.value.fixed ==> settings.value.fixedCode.Some?)
    && (!settings.value.fixed && q.next.Some? ==>
          now < site.access.stays[q.next.value].checkInAt && Usable(site.access, q.next.value, q.neighbors, now))
    && (!settings.value.fixed && q.next.None? ==> task.propertyId in site.vacancy)
  }

  /** Nothing blocks the password exactly when the task is ready, and the code shown is
      then the next reservation's, the vacant room's, or none where it is fixed. */
  lemma ShownIffReady(site: Site, key: Tasks.TaskKey, q: Query, now: int)
    requires key in site.tasks && Resolves(site, q)
    ensures var shown := ShownFor(site, key, q, now);
            && (shown.obstacle.None? <==> Ready(site, key, q, now))
            && (shown.obstacle.Some? ==> shown.code.None?)
            && (shown.obstacle.None? ==>
                  match shown.kind
                  case FixedRoom => shown.code.None? && !shown.requiresChange
                  case NextStay => && shown.requiresChange && q.next.Some? && q.next.value in site.access.codes
                                   && shown.code == Some(site.access.codes[q.next.value].code)
                  case Vacancy => shown.requiresChange && shown.code == Find(site.vacancy, site.tasks[key].propertyId))
  {
  }

  /** A next reservation's code differs from the codes of the reservations around it. */
  lemma NextCodeIsNew(site: Site, key: Tasks.TaskKey, q: Query, now: int)
    requires key in site.tasks && Resolves(site, q) && Answers(site, key, q)
    ensures var shown := ShownFor(site, key, q, now);
            shown.obstacle.None? && shown.kind == NextStay ==>
              shown.code.Some? && shown.code.value !in Access.NeighborCodes(site.access, q.neighbors)
  {
    var shown := ShownFor(site, key, q, now);
    if shown.obstacle.None? && shown.kind == NextStay {
      ShownIffReady(site, key, q, now);
      var next := site.access.stays[q.next.value];
      var saved := site.access.codes[q.next.value];
      Access.PartOfReview(site.access, next, saved, q.neighbors);
      var reasons := Access.NeighborReasons(site.access, Access.SettingsOf(site.access, next), saved, q.neighbors);
      assert Access.NeighborConflict !in reasons;
    }
  }

  /** Active stays of a property never overlap, and each lasts some time. */
  predicate BookedApart(w: Access.World) {
    && Access.StaysKeyed(w)
    && (forall a :: a in w.stays ==> w.stays[a].checkInAt < w.stays[a].checkOutAt)
    && (forall a, b :: a in w.stays && b in w.stays && a != b && w.stays[a].active && w.stays[b].active
                       && w.stays[a].propertyId == w.stays[b].propertyId ==>
          w.stays[a].checkOutAt <= w.stays[b].checkInAt || w.stays[b].checkOutAt <= w.stays[a].checkInAt)
  }

  /** The reservation before the next arrival is the departing one. */
  lemma DepartingIsNeighbor(site: Site, key: Tasks.TaskKey, q: Query)
    requires key in site.tasks && key.Departure? && BookedApart(site.access)
    requires DepartingOf(site, key).Some? && DepartingOf(site, key).value.active
    requires DepartingOf(site, key).value.propertyId == site.tasks[key].propertyId
    requires Answers(site, key, q) && q.next.Some?
    ensures q.neighbors.previous == Some(key.stayId)
  {
    var w := site.access;
    var next, departing := w.stays[q.next.value], w.stays[key.stayId];
    assert Access.Before(w, next, key.stayId);
    var p := q.neighbors.previous.value;
    if p != key.stayId {
      assert Access.Before(w, next, p);
      assert departing.checkOutAt <= w.stays[p].checkOutAt;
      assert Arrives(site, key, p);
    }
  }

  /** Where a next guest is coming, whoever left cannot come back in: the code a worker
      sets is not the code of the guest who departed. */
  lemma DepartingGuestIsLockedOut(site: Site, key: Tasks.TaskKey, q: Query, now: int)
    requires key in site.tasks && key.Departure? && BookedApart(site.access) && Resolves(site, q)
    requires DepartingOf(site, key).Some? && DepartingOf(site, key).value.propertyId == site.tasks[key].propertyId
    requires Answers(site, key, q) && key.stayId in site.access.codes
    ensures var shown := ShownFor(site, key, q, now);
            shown.obstacle.None? && shown.kind == NextStay ==>
              shown.code.Some? && shown.code.value != site.access.codes[key.stayId].code
  {
    var shown := ShownFor(site, key, q, now);
    if shown.obstacle.None? && shown.kind == NextStay {
      ShownIffReady(site, key, q, now);
      NextCodeIsNew(site, key, q, now);
      DepartingIsNeighbor(site, key, q);
      assert site.access.codes[key.stayId].code in Access.NeighborCodes(site.access, q.neighbors);
    }
  }

  /** The worker is told to set the very code of the guest who left exactly where nobody
      is coming and the vacancy code of the property is that code. */
  lemma DepartingCodeReturnsIff(site: Site, key: Tasks.TaskKey, q: Query, now: int)
    requires key in site.tasks && key.Departure? && BookedApart(site.access) && Resolves(site, q)
    requires DepartingOf(site, key).Some? && DepartingOf(site, key).value.propertyId == site.tasks[key].propertyId
    requires Answers(site, key, q) && key.stayId in site.access.codes && Ready(site, key, q, now)
    ensures var propertyId, code := site.tasks[key].propertyId, Some(site.access.codes[key.stayId].code);
            ShownFor(site, key, q, now).code == code
            <==> !site.access.settings[propertyId].fixed && q.next.None? && Find(site.vacancy, propertyId) == code
  {
    ShownIffReady(site, key, q, now);
    if ShownFor(site, key, q, now).kind == NextStay {
      DepartingGuestIsLockedOut(site, key, q, now);
    }
  }

  // ---------------------------------------------------------------- versions stand for contents

  datatype Step =
    | SaveCode(input: Access.Input, administrator: Option<string>, n: Access.Neighbors, draws: seq<nat>, at: int)
    | ChangeSettings(propertyId: string, expectedVersion: int, fixed: bool, newFixed: Option<Option<string>>,
                     newVacancy: Option<Option<string>>)
    | WriteStay(stay: Access.Stay, revision: Access.Revision)
    | SetProperty(propertyId: string, open: bool, worker: Worker)
    | WriteTask(op: Tasks.Op)
    | CompleteTask(request: Request)

  /** The settings of a property and its vacancy code under the next version. */
  function SettingsChanged(site: Site, step: Step): Option<Site>
    requires step.ChangeSettings?
  {
    var current := SettingsAt(site, step.propertyId);
    var version := Access.SettingsVersion(current);
    var fixedCode := if step.newFixed.Some? then step.newFixed.value
                     else if current.Some? then current.value.fixedCode else None;
    if version != step.expectedVersion || version >= MAX_VERSION || (step.fixed && fixedCode.None?) then None
    else
      var settings := Access.Settings(if current.Some? then version + 1 else 1, step.fixed, fixedCode);
      Some(site.(access := site.access.(settings := site.access.settings[step.propertyId := settings]),
                 vacancy := if step.newVacancy.None? then site.vacancy
                            else if step.newVacancy.value.Some?
                            then site.vacancy[step.propertyId := step.newVacancy.value.value]
                            else site.vacancy - {step.propertyId}))
  }

  function Apply(site: Site, step: Step): Site {
    match step
    case SaveCode(input, administrator, n, draws, now) =>
      (match Access.Saved(site.access, input, administrator, n, draws, now)
       case Ok(next) => site.(access := next)
       case Err(_) => site)
    case ChangeSettings(_, _, _, _, _) =>
      (match SettingsChanged(site, step)
       case Some(next) => next
       case None => site)
    case WriteStay(stay, revision) =>
      site.(access := site.access.(stays := site.access.stays[stay.id := stay],
                                   revisions := site.access.revisions[stay.id :=
                                     Access.RevisionsOf(site.access, stay) + [revision]]))
    case SetProperty(id, open, worker) =>
      site.(access := site.access.(openProperties := if open then site.access.openProperties + {id}
                                                     else site.access.openProperties - {id}),
            workers := site.workers[id := worker])
    case WriteTask(op) => if op.Complete? then site else site.(tasks := Tasks.Apply(site.tasks, op))
    case CompleteTask(r) =>
      if !Resolves(site, r.q) || Refusal(site, r).Some? then site else Completed(site, r)
  }

  function Run(site: Site, steps: seq<Step>): Site
    decreases |steps|
  {
    if steps == [] then site else Run(Apply(site, steps[0]), steps[1..])
  }

  /** A house whose only guest has left, and which nobody has booked next. */
  const LEFT := Tasks.Departure("s")
  const GUEST_CODE := "482913"
  const LEFT_SITE := Site(
    Access.World(map["s" := Access.Stay("s", "p", 1, true, "A", None, 0, 10)], map[], {"p"},
                 map["p" := Access.Settings(1, false, None)],
                 map["s" := Access.Code(1, Access.Automatic, GUEST_CODE, 1, 1, 0, 0)], []),
    map[], map["p" := Worker(Some("w"), Some("qr"))],
    map[LEFT := Tasks.Task("p", Tasks.InProgress, 10, false, Some(1), 2, None, false, None, Some("c"), None, None)],
    map[])

  /** Nothing compares a vacancy code with the codes of guests: the settings accept the
      departed guest's code, and the worker is shown it for the empty room. */
  lemma VacancyCodeMayRepeat()
    ensures var site := Apply(LEFT_SITE, ChangeSettings("p", 1, false, None, Some(Some(GUEST_CODE))));
            var q := Query(None, Access.Neighbors(None, None));
            && BookedApart(site.access) && Answers(site, LEFT, q)
            && ShownFor(site, LEFT, q, 20).obstacle.None? && ShownFor(site, LEFT, q, 20).kind == Vacancy
            && ShownFor(site, LEFT, q, 20).code == Some(site.access.codes["s"].code)
  {
    var site := Apply(LEFT_SITE, ChangeSettings("p", 1, false, None, Some(Some(GUEST_CODE))));
    assert !InUse(site, "p", 20);
  }

  /** Versions start at one. */
  predicate Numbered(site: Site) {
    && Access.StaysKeyed(site.access)
    && (forall id :: id in site.access.codes ==> 1 <= site.access.codes[id].version)
    && (forall id :: id in site.access.settings ==> 1 <= site.access.settings[id].version)
  }

  function VersionOf(site: Site, id: string): int {
    Access.VersionOf(Access.SavedCode(site.access, id))
  }

  predicate CodeEvolves(site: Site, later: Site, id: string) {
    && VersionOf(site, id) <= VersionOf(later, id)
    && (VersionOf(site, id) == VersionOf(later, id) ==>
          Access.SavedCode(site.access, id) == Access.SavedCode(later.access, id))
  }

  predicate SettingsEvolve(site: Site, later: Site, id: string) {
    && Access.SettingsVersion(SettingsAt(site, id)) <= Access.SettingsVersion(SettingsAt(later, id))
    && (Access.SettingsVersion(SettingsAt(site, id)) == Access.SettingsVersion(SettingsAt(later, id)) ==>
          SettingsAt(site, id) == SettingsAt(later, id) && Find(site.vacancy, id) == Find(later.vacancy, id))
  }

  /** A version never goes down, and the same version means the same content. */
  ghost predicate Evolves(site: Site, later: Site) {
    && (forall id {:trigger CodeEvolves(site, later, id)} :: CodeEvolves(site, later, id))
    && (forall id {:trigger SettingsEvolve(site, later, id)} :: SettingsEvolve(site, later, id))
  }

  lemma SaveEvolves(site: Site, step: Step)
    requires Numbered(site) && step.SaveCode?
    ensures Numbered(Apply(site, step)) && Evolves(site, Apply(site, step))
  {
    var saved := Access.Saved(site.access, step.input, step.administrator, step.n, step.draws, step.at);
    var next := Apply(site, step);
    if saved.Ok? {
      Access.SavedMeans(site.access, step.input, step.administrator, step.n, step.draws, step.at);
      var stay := site.access.stays[step.input.stayId];
      forall id
        ensures CodeEvolves(site, next, id)
        ensures id in next.access.codes ==> 1 <= next.access.codes[id].version
      {
        if id != stay.id {
          assert Access.SavedCode(next.access, id) == Access.SavedCode(site.access, id);
        } else {
          assert Access.SavedCode(next.access, id).Some?;
        }
      }
    }
  }

  lemma SettingsStepEvolves(site: Site, step: Step)
    requires Numbered(site) && step.ChangeSettings?
    ensures Numbered(Apply(site, step)) && Evolves(site, Apply(site, step))
  {
    var next := Apply(site, step);
    forall id ensures SettingsEvolve(site, next, id) {
      if id == step.propertyId && id in site.access.settings {
        assert 1 <= site.access.settings[id].version;
      }
    }
  }

  lemma StepEvolves(site: Site, step: Step)
    requires Numbered(site)
    ensures Numbered(Apply(site, step)) && Evolves(site, Apply(site, step))
  {
    match step
    case SaveCode(_, _, _, _, _) => SaveEvolves(site, step);
    case ChangeSettings(_, _, _, _, _) => SettingsStepEvolves(site, step);
    case _ =>
  }

  lemma {:induction false} RunEvolves(site: Site, steps: seq<Step>)
    requires Numbered(site)
    ensures Numbered(Run(site, steps)) && Evolves(site, Run(site, steps))
    decreases |steps|
  {
    if steps != [] {
      var next, last := Apply(site, steps[0]), Run(site, steps);
      StepEvolves(site, steps[0]);
      RunEvolves(next, steps[1..]);
      forall id ensures CodeEvolves(site, last, id) && SettingsEvolve(site, last, id) {
        assert CodeEvolves(site, next, id) && CodeEvolves(next, last, id);
        assert SettingsEvolve(site, next, id) && SettingsEvolve(next, last, id);
      }
    }
  }

  // ---------------------------------------------------------------- what was confirmed is what holds

  /** The same fingerprint, seen unblocked at two moments of a run, stands for the same
      code, although no code enters it. */
  lemma SameFingerprintSameCode(site: Site, steps: seq<Step>, key: Tasks.TaskKey, q: Query, now: int,
                                laterQ: Query, laterNow: int)
    requires Numbered(site) && key in site.tasks && Resolves(site, q)
    requires var later := Run(site, steps);
             && key in later.tasks && Resolves(later, laterQ)
             && later.tasks[key].propertyId == site.tasks[key].propertyId
    requires var shown, again := ShownFor(site, key, q, now), ShownFor(Run(site, steps), key, laterQ, laterNow);
             shown.obstacle.None? && again.obstacle.None? && shown.fingerprint == again.fingerprint
    ensures var shown, again := ShownFor(site, key, q, now), ShownFor(Run(site, steps), key, laterQ, laterNow);
            shown.code == again.code && shown.kind == again.kind && shown.requiresChange == again.requiresChange
  {
    var later, propertyId := Run(site, steps), site.tasks[key].propertyId;
    RunEvolves(site, steps);
    ShownIffReady(site, key, q, now);
    ShownIffReady(later, key, laterQ, laterNow);
    assert SettingsEvolve(site, later, propertyId);
    if q.next.Some? {
      assert CodeEvolves(site, later, q.next.value);
    }
  }

  /** A task keeps its property for good, and a completed one its completion. */
  predicate KeepsTasks(site: Site, later: Site) {
    && (forall key :: key in site.tasks ==>
          key in later.tasks && TaskRuns.Evolves(site.tasks[key], later.tasks[key]))
    && (forall key :: key in site.completions && key in site.tasks && site.tasks[key].status == Tasks.Completed ==>
          key in later.completions && later.completions[key] == site.completions[key])
  }

  lemma StepKeepsTasks(site: Site, step: Step)
    requires TaskRuns.AllSound(site.tasks)
    ensures TaskRuns.AllSound(Apply(site, step).tasks) && KeepsTasks(site, Apply(site, step))
  {
    match step
    case WriteTask(op) => TaskRuns.ApplyKeeps(site.tasks, op);
    case CompleteTask(r) =>
      if Resolves(site, r.q) && Refusal(site, r).None? && r.task.Some? {
        TaskRuns.ApplyKeeps(site.tasks, Tasks.Complete(r.task.value, site.tasks[r.task.value].version, r.draftId,
                                                    r.completedAt));
      }
    case _ =>
  }

  lemma {:induction false} RunKeepsTasks(site: Site, steps: seq<Step>)
    requires TaskRuns.AllSound(site.tasks)
    ensures TaskRuns.AllSound(Run(site, steps).tasks) && KeepsTasks(site, Run(site, steps))
    decreases |steps|
  {
    if steps != [] {
      StepKeepsTasks(site, steps[0]);
      RunKeepsTasks(Apply(site, steps[0]), steps[1..]);
    }
  }

  lemma CompletionStays(site: Site, r: Request, steps: seq<Step>)
    requires TaskRuns.AllSound(site.tasks) && Resolves(site, r.q) && Refusal(site, r).None? && r.task.Some?
    ensures var key, final := r.task.value, Run(Completed(site, r), steps);
            && key in final.tasks && final.tasks[key].status == Tasks.Completed
            && key in final.completions && final.completions[key].fingerprint == r.confirmation.value.fingerprint
            && final.completions[key].submissionId == r.draftId
  {
    var done, key := Completed(site, r), r.task.value;
    StepKeepsTasks(site, CompleteTask(r));
    assert done == Apply(site, CompleteTask(r));
    RunKeepsTasks(done, steps);
    assert TaskRuns.Evolves(done.tasks[key], Run(done, steps).tasks[key]);
  }

  lemma AcceptedIsShown(site: Site, r: Request, key: Tasks.TaskKey)
    requires Resolves(site, r.q) && Refusal(site, r).None? && r.task == Some(key)
    ensures key in site.tasks && r.confirmation.Some?
    ensures var shown := ShownFor(site, key, r.q, r.now);
            shown.obstacle.None? && shown.fingerprint == r.confirmation.value.fingerprint
  {
  }

  /** A completion goes through only while the code that its worker was shown is still
      the current one, whatever administrators did in between; and what was confirmed
      stays with the task for good. */
  lemma CompletionIsForWhatWasShown(site: Site, steps: seq<Step>, key: Tasks.TaskKey, submissionId: string,
                                    q: Query, now: int, r: Request, afterwards: seq<Step>)
    requires Numbered(site) && TaskRuns.AllSound(site.tasks) && Resolves(site, q)
    requires var shown := Context(site, key, submissionId, q, now);
             && shown.Ok? && shown.value.obstacle.None? && r.task == Some(key)
             && r.confirmation.Some? && r.confirmation.value.fingerprint == shown.value.fingerprint
    requires Resolves(Run(site, steps), r.q) && Refusal(Run(site, steps), r).None?
    ensures var later := Run(site, steps);
            var final := Run(Completed(later, r), afterwards);
            && key in later.tasks && ShownFor(later, key, r.q, r.now).code == ShownFor(site, key, q, now).code
            && Ready(later, key, r.q, r.now)
            && key in final.tasks && final.tasks[key].status == Tasks.Completed
            && key in final.completions && final.completions[key].fingerprint == r.confirmation.value.fingerprint
  {
    var later := Run(site, steps);
    RunKeepsTasks(site, steps);
    AcceptedIsShown(later, r, key);
    assert TaskRuns.Evolves(site.tasks[key], later.tasks[key]);
    SameFingerprintSameCode(site, steps, key, q, now, r.q, r.now);
    ShownIffReady(later, key, r.q, r.now);
    CompletionStays(later, r, afterwards);
  }
}
