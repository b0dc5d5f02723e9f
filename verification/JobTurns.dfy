/** What one run over a job sends and what it leaves of the job, told from what the run
    read, without the functions that compute it. */
module JobTurns {
  import opened Wrappers
  import opened Messaging
  import opened Automation
  import opened AutomationRunner

  /** A closed source gets no message any more. */
  predicate Gone(t: Turn) {
    || t.source.None? || !t.source.value.eligible || t.source.value.status == Completed
    || (t.source.value.subject.kind == StaySubject && t.source.value.endAt <= t.now)
  }

  /** The source is no longer what the job was written for. */
  predicate Moved(job: Job, t: Turn) {
    && t.source.Some?
    && (t.source.value.version != job.sourceVersion || t.source.value.fingerprint != job.sourceFingerprint)
  }

  /** More than an hour late. */
  predicate Missed(job: Job, t: Turn) {
    t.now > job.dueAt + 3_600_000
  }

  /** Nothing but status, reason and dispatch of the job may change. */
  predicate SameMessage(job: Job, after: Job) {
    && after.subject == job.subject && after.kind == job.kind && after.sourceVersion == job.sourceVersion
    && after.sourceFingerprint == job.sourceFingerprint && after.dueAt == job.dueAt
  }

  predicate Parked(job: Job, after: Job, status: JobStatus, reason: Reason) {
    && SameMessage(job, after) && after.status == status && after.reason == Some(reason)
    && after.dispatchId == job.dispatchId
  }

  predicate Tied(job: Job, after: Job, attempt: Attempt) {
    && SameMessage(job, after) && after.dispatchId == Some(attempt.id)
    && match attempt.outcome
       case Unclear => after.status == OutcomeUnknown && after.reason == Some(DeliveryUnknown)
       case Rejected => after.status == DispatchFailed && after.reason == Some(DeliveryFailed)
       case Handed => after.status == Dispatched && after.reason.None?
  }

  /** Found after an error, an attempt ties the job; else the job waits for another run. */
  predicate Recovers(job: Job, after: Job, found: Option<Attempt>) {
    match found
    case Some(attempt) => Tied(job, after, attempt)
    case None => Parked(job, after, Blocked, NotReady)
  }

  /** An attempt made before ties the job; a job that is late, closed or out of date is
      skipped; one that cannot be sent waits; one that was sent is tied to its message. */
  lemma TurnMeans(job: Job, t: Turn)
    ensures var after := TurnJob(job, t);
            && (t.existing.Some? ==> Tied(job, after, t.existing.value))
            && (t.existing.None? ==>
                  if Missed(job, t) then Parked(job, after, Skipped, MissedWindow)
                  else if Gone(t) then Parked(job, after, Skipped, SourceClosed)
                  else if Moved(job, t) then Parked(job, after, Skipped, SourceChanged)
                  else match t.preview
                       case PreviewFailed => Recovers(job, after, t.found)
                       case PreviewRefused => Parked(job, after, Blocked, NotReady)
                       case PreviewReady(_) =>
                         if !t.keep then after == job
                         else if t.sent.Some? then Tied(job, after, t.sent.value)
                         else Recovers(job, after, t.found))
  {
  }

  /** A request goes out exactly for a job in time, without an attempt, whose source is open
      and as it was, with a preview and the lease; and it is that job's own. */
  lemma RequestMeans(key: JobKey, job: Job, t: Turn)
    ensures var sent := TurnRequests(key, job, t);
            && (sent != [] <==> && t.existing.None? && !Missed(job, t) && !Gone(t) && !Moved(job, t)
                                && t.preview.PreviewReady? && t.keep)
            && (sent != [] ==>
                  && |sent| == 1 && sent[0].subject == job.subject && sent[0].kind == job.kind
                  && sent[0].key == AutomaticKey(key) && sent[0].mode == Automatic
                  && sent[0].expectedVersion == Some(job.sourceVersion)
                  && sent[0].previewKey == Some(t.preview.key))
  {
  }

  /** A run over a job writes on no other. */
  lemma RunOverMeans(jobs: Jobs, key: JobKey, t: Turn)
    requires key in jobs
    ensures var after := RunOver(jobs, key, jobs[key], t);
            && after.Keys == jobs.Keys && after[key] == TurnJob(jobs[key], t)
            && forall other :: other in jobs && other != key ==> after[other] == jobs[other]
  {
  }

  /** The due jobs are those that wait or are blocked and whose time has come. */
  lemma {:induction false} DueMeans(jobs: Jobs, order: seq<JobKey>, now: int, from: nat)
    requires from <= |order|
    ensures var rows := DueFrom(jobs, order, now, from);
            && (forall i, j :: 0 <= i < j < |rows| ==> rows[i] < rows[j])
            && (forall p :: p in rows
                            <==> && from <= p < |order| && order[p] in jobs && jobs[order[p]].dueAt <= now
                                 && jobs[order[p]].status in {Pending, Blocked})
    decreases |order| - from
  {
    if from < |order| {
      DueMeans(jobs, order, now, from + 1);
    }
  }

  /** The jobs to recover are those without a dispatch. */
  lemma {:induction false} UntiedMeans(jobs: Jobs, order: seq<JobKey>, from: nat)
    requires from <= |order|
    ensures var rows := UntiedFrom(jobs, order, from);
            && (forall i, j :: 0 <= i < j < |rows| ==> rows[i] < rows[j])
            && (forall p :: p in rows <==> from <= p < |order| && order[p] in jobs && jobs[order[p]].dispatchId.None?)
    decreases |order| - from
  {
    if from < |order| {
      UntiedMeans(jobs, order, from + 1);
    }
  }

  /** Recovery ties a job that has an attempt and leaves every other job alone. */
  lemma TiedMeans(jobs: Jobs, key: JobKey, attempts: Attempts)
    requires key in jobs
    ensures var after := TiedOne(jobs, key, attempts);
            && after.Keys == jobs.Keys
            && (if key in attempts then Tied(jobs[key], after[key], attempts[key]) else after == jobs)
            && forall other :: other in jobs && other != key ==> after[other] == jobs[other]
  {
  }
}
