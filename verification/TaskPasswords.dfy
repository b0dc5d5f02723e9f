/** What a worker is shown for a cleaning task, what stands in the way of it, and what a
    completion leaves, told from the tables alone. */
module TaskPasswords {
  import opened Wrappers
  import opened TaskAccess
  import Access = StayAccess
  import Codes = SavedCodes
  import Tasks = CleaningTasks

  // ---------------------------------------------------------------- what stands in the way

  predicate Rotates(site: Site, propertyId: string) {
    propertyId in site.access.settings && !site.access.settings[propertyId].fixed
  }

  predicate Leaves(site: Site, key: Tasks.TaskKey) {
    key.Departure? && key.stayId in site.access.stays
  }

  /** The code of that stay is saved, nothing speaks against it and nothing blocks it. */
  ghost predicate CodeStands(w: Access.World, id: string, n: Access.Neighbors, now: int)
    requires id in w.stays
  {
    && id in w.codes && w.codes[id].code != ""
    && (forall why :: !Codes.Speaks(w, w.stays[id], w.codes[id], n, why))
    && (forall why :: !Codes.Stops(w, w.stays[id], now, why))
  }

  lemma UsableIff(w: Access.World, id: string, n: Access.Neighbors, now: int)
    requires id in w.stays && Codes.DistinctVersions(w, w.stays[id].id)
    ensures Usable(w, id, n, now) <==> CodeStands(w, id, n, now)
  {
    Codes.BlockedMeans(w, w.stays[id], now);
    if id in w.codes {
      Codes.ReviewedAllMean(w, w.stays[id], w.codes[id], n);
    }
  }

  ghost predicate Hinders(site: Site, key: Tasks.TaskKey, q: Query, now: int, why: Obstacle)
    requires key in site.tasks && Resolves(site, q)
  {
    var task := site.tasks[key];
    match why
    case NotYet => now < task.dueAt || (Leaves(site, key) && now < site.access.stays[key.stayId].checkOutAt)
    case ReservationCancelled => Leaves(site, key) && !site.access.stays[key.stayId].active
    case Occupied =>
      exists id :: && id in site.access.stays
                   && (var stay := site.access.stays[id];
                       && stay.active && stay.propertyId == task.propertyId
                       && stay.checkInAt <= now && now < stay.checkOutAt)
    case NoSettings => task.propertyId !in site.access.settings
    case ArrivalPassed =>
      Rotates(site, task.propertyId) && q.next.Some? && site.access.stays[q.next.value].checkInAt <= now
    case NoFixedCode =>
      && task.propertyId in site.access.settings && site.access.settings[task.propertyId].fixed
      && site.access.settings[task.propertyId].fixedCode.None?
    case NextNotPrepared =>
      && Rotates(site, task.propertyId) && q.next.Some?
      && !CodeStands(site.access, q.next.value, q.neighbors, now)
    case NoVacancyCode => Rotates(site, task.propertyId) && q.next.None? && task.propertyId !in site.vacancy
  }

  /** The order in which the obstacles are looked for. */
  function Rank(why: Obstacle): nat {
    match why
    case NotYet => 0
    case ReservationCancelled => 1
    case Occupied => 2
    case NoSettings => 3
    case ArrivalPassed => 4
    case _ => 5
  }

  predicate NextIsNumbered(site: Site, q: Query) {
    q.next.Some? && q.next.value in site.access.stays ==>
      Codes.DistinctVersions(site.access, site.access.stays[q.next.value].id)
  }

  lemma ScheduleMeans(site: Site, key: Tasks.TaskKey, q: Query, now: int)
    requires key in site.tasks && Resolves(site, q)
    ensures match ScheduleObstacle(site, key, q, now)
            case None => forall why :: Rank(why) < 5 ==> !Hinders(site, key, q, now, why)
            case Some(why) =>
              && Rank(why) < 5 && Hinders(site, key, q, now, why)
              && forall earlier :: Rank(earlier) < Rank(why) ==> !Hinders(site, key, q, now, earlier)
  {
  }

  /** The obstacle named is there, and no earlier one is; without one there is none, and the
      code shown is the next guest's, the vacant house's, or nothing where it is fixed. */
  lemma ShownMeans(site: Site, key: Tasks.TaskKey, q: Query, now: int)
    requires key in site.tasks && Resolves(site, q) && NextIsNumbered(site, q)
    ensures var shown, propertyId := ShownFor(site, key, q, now), site.tasks[key].propertyId;
            && shown.requiresChange == Rotates(site, propertyId)
            && (shown.kind == FixedRoom <==> !Rotates(site, propertyId))
            && (shown.kind == NextStay <==> Rotates(site, propertyId) && q.next.Some?)
            && (shown.kind == Vacancy <==> Rotates(site, propertyId) && q.next.None?)
            && (match shown.obstacle
                case Some(why) =>
                  && shown.code.None? && Hinders(site, key, q, now, why)
                  && forall earlier :: Rank(earlier) < Rank(why) ==> !Hinders(site, key, q, now, earlier)
                case None =>
                  && (forall why :: !Hinders(site, key, q, now, why))
                  && (shown.kind == FixedRoom ==> shown.code.None?)
                  && (shown.kind == Vacancy ==>
                        propertyId in site.vacancy && shown.code == Some(site.vacancy[propertyId]))
                  && (shown.kind == NextStay ==>
                        && q.next.value in site.access.codes
                        && shown.code == Some(site.access.codes[q.next.value].code)))
  {
    ScheduleMeans(site, key, q, now);
    if q.next.Some? {
      UsableIff(site.access, q.next.value, q.neighbors, now);
    }
  }

  // ---------------------------------------------------------------- the fingerprint

  /** Each part of a fingerprint, from the tables. */
  lemma FingerprintMeans(site: Site, key: Tasks.TaskKey, q: Query)
    requires key in site.tasks && Resolves(site, q)
    ensures var f, task, stays := FingerprintOf(site, key, q), site.tasks[key], site.access.stays;
            && f.task == key && f.taskVersion == task.version && f.dueAt == task.dueAt
            && (if Leaves(site, key)
                then && f.departingRevision == Some(stays[key.stayId].revision)
                     && f.departingCheckOutAt == Some(stays[key.stayId].checkOutAt)
                else f.departingRevision.None? && f.departingCheckOutAt.None?)
            && f.settingsVersion
               == (if task.propertyId in site.access.settings then site.access.settings[task.propertyId].version else 0)
            && f.worker
               == (if task.propertyId in site.workers then site.workers[task.propertyId] else Worker(None, None))
            && (f.kind == FixedRoom <==> !Rotates(site, task.propertyId))
            && (f.kind == NextStay <==> Rotates(site, task.propertyId) && q.next.Some?)
            && f.targetId == q.next
            && (match q.next
                case None =>
                  && f.targetRevision.None? && f.targetCodeVersion.None? && f.nextCheckInAt.None?
                  && f.nextCheckOutAt.None?
                case Some(next) =>
                  && f.targetRevision == Some(stays[next].revision) && f.nextCheckInAt == Some(stays[next].checkInAt)
                  && f.nextCheckOutAt == Some(stays[next].checkOutAt)
                  && f.targetCodeVersion
                     == if next in site.access.codes then Some(site.access.codes[next].version) else None)
  {
  }

  // ---------------------------------------------------------------- completing

  /** The worker's checklist is the one that the task is being done with, at an open property. */
  predicate InHand(site: Site, key: Tasks.TaskKey, submissionId: string) {
    && key in site.tasks
    && (var task := site.tasks[key];
        && task.status == Tasks.InProgress && task.currentSubmissionId == Some(submissionId)
        && task.propertyId in site.access.openProperties)
  }

  predicate Confirms(r: Request) {
    r.confirmation.Some? && r.confirmation.value.guestDeparted
  }

  /** Why a completion is refused: the first of these. */
  ghost predicate RefusedFor(site: Site, r: Request, why: TaskAccessError)
    requires Resolves(site, r.q)
  {
    match r.task
    case None => why == Changed && r.confirmation.Some?
    case Some(key) =>
      if !Confirms(r) then why == ConfirmationRequired
      else if !r.afterPhoto then why == AfterPhotoRequired
      else if !InHand(site, key, r.draftId) then why == InvalidTaskAccess
      else if exists obstacle :: Hinders(site, key, r.q, r.now, obstacle) then why == PasswordBlocked
      else if r.confirmation.value.fingerprint != FingerprintOf(site, key, r.q) then why == Changed
      else
        && why == PasswordConfirmationRequired && Rotates(site, site.tasks[key].propertyId)
        && !r.confirmation.value.passwordChanged
  }

  lemma RefusalMeans(site: Site, r: Request)
    requires Resolves(site, r.q) && NextIsNumbered(site, r.q)
    ensures match Refusal(site, r)
            case None => forall why :: !RefusedFor(site, r, why)
            case Some(why) => RefusedFor(site, r, why)
  {
    if r.task.Some? && r.task.value in site.tasks {
      ShownMeans(site, r.task.value, r.q, r.now);
    }
  }

  /** The task is completed, a version later, and what was confirmed is kept with it; all
      else is as it was, and so is everything where the checklist belongs to no task. */
  lemma CompleteMeans(site: Site, r: Request)
    requires Resolves(site, r.q) && Refusal(site, r).None?
    ensures match r.task
            case None => Completed(site, r) == site
            case Some(key) =>
              && Confirms(r) && InHand(site, key, r.draftId)
              && (var after, was := Completed(site, r), site.tasks[key];
                  && after == site.(tasks := after.tasks, completions := after.completions)
                  && after.tasks == site.tasks[key := was.(status := Tasks.Completed, version := was.version + 1,
                                                           completedAt := Some(r.completedAt))]
                  && after.completions.Keys == site.completions.Keys + {key}
                  && (forall other :: other in site.completions && other != key ==>
                        after.completions[other] == site.completions[other])
                  && (var kept := after.completions[key];
                      && kept.fingerprint == r.confirmation.value.fingerprint
                      && kept.fingerprint == FingerprintOf(site, key, r.q)
                      && kept.submissionId == r.draftId && kept.confirmedAt == r.completedAt
                      && (kept.passwordChanged <==> Rotates(site, was.propertyId))
                      && (kept.passwordChanged ==> r.confirmation.value.passwordChanged)))
  {
  }

  // ---------------------------------------------------------------- the settings of a house

  /** New settings need the version that was seen, and a fixed code where the code is fixed;
      what is not given stays. */
  lemma SettingsMeans(site: Site, step: Step)
    requires step.ChangeSettings?
    ensures var id, next := step.propertyId, SettingsChanged(site, step);
            var known := id in site.access.settings;
            var was := if known then site.access.settings[id].fixedCode else None;
            var version := if known then site.access.settings[id].version else 0;
            var code := if step.newFixed.Some? then step.newFixed.value else was;
            && (next.Some? <==> && step.expectedVersion == version && version < 2147483647
                                && (step.fixed ==> code.Some?))
            && (next.Some? ==>
                  && next.value == site.(access := next.value.access, vacancy := next.value.vacancy)
                  && next.value.access == site.access.(settings := next.value.access.settings)
                  && next.value.access.settings.Keys == site.access.settings.Keys + {id}
                  && (forall other :: other in site.access.settings && other != id ==>
                        next.value.access.settings[other] == site.access.settings[other])
                  && (var now := next.value.access.settings[id];
                      && now.fixed == step.fixed && now.fixedCode == code
                      && now.version == if known then version + 1 else 1)
                  && (forall other :: other != id ==>
                        Find(next.value.vacancy, other) == Find(site.vacancy, other))
                  && Find(next.value.vacancy, id)
                     == if step.newVacancy.Some? then step.newVacancy.value else Find(site.vacancy, id))
  {
  }
}
