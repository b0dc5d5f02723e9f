/** What one observation leaves of a subject's jobs: which notice it queues, when its
    reminders are due, and what becomes of the jobs that were waiting. */
module AutomationJobs {
  import opened Wrappers
  import opened Messaging
  import opened Automation

  const WEEK := 604_800_000
  const DAY := 86_400_000
  const HOUR := 3_600_000

  // ---------------------------------------------------------------- what was observed

  /** Messages about the source still make sense. */
  predicate OpenAt(s: Source, now: int) {
    && s.eligible && (s.status == Active || s.status == Cancelled)
    && (s.subject.kind == StaySubject ==> now < s.endAt)
  }

  /** It was seen before, in another state. */
  predicate Differs(o: Observation) {
    o.previous.Some? && o.previous.value.fingerprint != o.source.fingerprint
  }

  function SequenceBefore(o: Observation): nat {
    if o.previous.Some? then o.previous.value.eventSequence else 0
  }

  /** The message that tells of a change or a cancellation. */
  predicate TellsChange(kind: MessageKind, s: Source) {
    match kind
    case GuestCancel => s.subject.kind == StaySubject && s.status == Cancelled
    case GuestChange => s.subject.kind == StaySubject && s.status != Cancelled
    case StaffCancel => s.subject.kind == TaskSubject && s.status == Cancelled
    case StaffChange => s.subject.kind == TaskSubject && s.status != Cancelled
    case _ => false
  }

  /** This observation queues a message of this kind. */
  predicate Queues(o: Observation, kind: MessageKind) {
    && OpenAt(o.source, o.now)
    && if kind == StaffAssignment then
         && o.previous.None? && o.source.status == Active && o.source.subject.kind == TaskSubject
         && o.activatedAt <= o.source.createdAt
       else Differs(o) && !o.rebaseline && TellsChange(kind, o.source)
  }

  function QueuedKey(o: Observation, kind: MessageKind): JobKey {
    Event(o.source.subject, kind, SequenceBefore(o) + (if Differs(o) then 1 else 0), o.source.version)
  }

  /** A job that waits to be sent for the source as it is. */
  predicate Waits(job: Job, s: Source, kind: MessageKind, dueAt: int) {
    && job.subject == s.subject && job.kind == kind && job.dueAt == dueAt
    && job.sourceVersion == s.version && job.sourceFingerprint == s.fingerprint
    && job.status == Pending && job.reason.None? && job.dispatchId.None?
  }

  lemma At(before: Jobs, o: Observation, after: Jobs, key: JobKey)
    requires Observed(before, o, after)
    ensures Find(after, key) == ObservedJob(key, Find(before, key), o)
  {
  }

  // ---------------------------------------------------------------- notices

  /** A change that is not the first sight and no rebaseline is told to the guest or the
      worker at once, by the message for what happened; a task assigned since the activation
      is told to its worker when it is first seen. */
  lemma NoticeIsQueued(before: Jobs, o: Observation, after: Jobs, kind: MessageKind)
    requires Observed(before, o, after) && Queues(o, kind) && QueuedKey(o, kind) !in before
    ensures var key := QueuedKey(o, kind); key in after && Waits(after[key], o.source, kind, o.now)
  {
    At(before, o, after, QueuedKey(o, kind));
  }

  /** And nothing else adds a notice. */
  lemma NothingElseIsQueued(before: Jobs, o: Observation, after: Jobs, key: JobKey)
    requires Observed(before, o, after) && key.Event? && key in after && key !in before
    ensures Queues(o, key.kind) && key == QueuedKey(o, key.kind)
  {
    At(before, o, after, key);
  }

  // ---------------------------------------------------------------- reminders

  /** A reminder that may still be rewritten: nothing was handed over for it. */
  predicate Rewritable(jobs: Jobs, key: JobKey) {
    key in jobs ==> jobs[key].dispatchId.None? && jobs[key].status in {Pending, Blocked, Skipped}
  }

  /** The reminder before arrival is due a week ahead; the one before departure at the
      chosen hour, in Seoul, of the day before. */
  predicate DueFor(kind: MessageKind, s: Source, hour: int, dueAt: int) {
    match kind
    case GuestCheckin => dueAt + WEEK == s.checkInAt
    case GuestCheckout =>
      && (dueAt + 9 * HOUR) / DAY == (s.endAt + 9 * HOUR) / DAY - 1 && (dueAt + 9 * HOUR) % DAY == hour * HOUR
    case _ => false
  }

  /** Why a reminder is not sent, if it is not. */
  predicate SkippedFor(job: Job, o: Observation) {
    match job.reason
    case None =>
      && job.status == Pending && o.activatedAt <= job.dueAt && o.source.createdAt <= job.dueAt
      && o.now <= job.dueAt + HOUR
    case Some(BeforeActivation) => job.status == Skipped && job.dueAt < o.activatedAt
    case Some(ShortNotice) => job.status == Skipped && o.activatedAt <= job.dueAt < o.source.createdAt
    case Some(MissedWindow) =>
      && job.status == Skipped && o.activatedAt <= job.dueAt && o.source.createdAt <= job.dueAt
      && job.dueAt + HOUR < o.now
    case _ => false
  }

  /** An active stay that is still to come has both reminders, for its present dates. */
  lemma RemindersAreSet(before: Jobs, o: Observation, after: Jobs, kind: MessageKind)
    requires Observed(before, o, after) && (kind == GuestCheckin || kind == GuestCheckout) && 0 <= o.hour < 24
    requires o.source.subject.kind == StaySubject && o.source.status == Active && OpenAt(o.source, o.now)
    ensures var key := Reminder(o.source.subject, kind);
            && key in after
            && (if Rewritable(before, key) then
                  && after[key].subject == o.source.subject && after[key].kind == kind
                  && after[key].sourceVersion == o.source.version
                  && after[key].sourceFingerprint == o.source.fingerprint && after[key].dispatchId.None?
                  && DueFor(kind, o.source, o.hour, after[key].dueAt) && SkippedFor(after[key], o)
                else after[key] == before[key])
  {
    At(before, o, after, Reminder(o.source.subject, kind));
  }

  lemma NoOtherReminders(before: Jobs, o: Observation, after: Jobs, key: JobKey)
    requires Observed(before, o, after) && key.Reminder? && key in after && key !in before
    ensures key.subject == o.source.subject && (key.kind == GuestCheckin || key.kind == GuestCheckout)
    ensures o.source.subject.kind == StaySubject && o.source.status == Active && OpenAt(o.source, o.now)
  {
    At(before, o, after, key);
  }

  // ---------------------------------------------------------------- the jobs that were there

  /** Why a waiting notice is dropped, if it is. */
  function DroppedFor(key: JobKey, o: Observation): Option<Reason> {
    if !OpenAt(o.source, o.now) then Some(SourceClosed)
    else if o.source.status == Cancelled && key.kind != GuestCancel && key.kind != StaffCancel then Some(SourceClosed)
    else if o.rebaseline && o.previous.Some? then Some(SecurityRebaseline)
    else if Differs(o) && !o.rebaseline then Some(SourceChanged)
    else None
  }

  /** A waiting notice of the subject is dropped for a reason, or stays and follows the
      version of a source that is materially the same. */
  lemma WaitingNotices(before: Jobs, o: Observation, after: Jobs, key: JobKey)
    requires Observed(before, o, after) && WellKeyed(before) && key in before && key.Event?
    requires key.subject == o.source.subject && Live(before[key])
    ensures key in after
    ensures var was, job, reason := before[key], after[key], DroppedFor(key, o);
            if reason.Some? then job == was.(status := Skipped, reason := reason)
            else job == was.(sourceVersion := if was.sourceFingerprint == o.source.fingerprint
                                              then o.source.version else was.sourceVersion)
  {
    At(before, o, after, key);
  }

  /** A waiting reminder of a stay that is over or cancelled is dropped. */
  lemma WaitingReminders(before: Jobs, o: Observation, after: Jobs, key: JobKey)
    requires Observed(before, o, after) && WellKeyed(before) && key in before && key.Reminder?
    requires key.subject == o.source.subject && Live(before[key])
    requires !OpenAt(o.source, o.now) || o.source.status == Cancelled
    ensures key in after && after[key] == before[key].(status := Skipped, reason := Some(SourceClosed))
  {
    At(before, o, after, key);
  }

  /** What was sent, what was skipped as a notice, and the jobs of others stay as they are. */
  lemma SettledJobsStay(before: Jobs, o: Observation, after: Jobs, key: JobKey)
    requires Observed(before, o, after) && key in before
    requires || key.subject != o.source.subject || before[key].dispatchId.Some?
             || before[key].status !in {Pending, Blocked, Skipped}
             || (before[key].status == Skipped
                 && !(key.Reminder? && o.source.status == Active && OpenAt(o.source, o.now)))
    ensures key in after && after[key] == before[key]
  {
    At(before, o, after, key);
  }

  /** The target remembers what was seen, and counts the changes. */
  lemma TargetRemembers(o: Observation)
    ensures var t := ObservedTarget(o);
            && t.sourceVersion == o.source.version && t.fingerprint == o.source.fingerprint
            && t.observedStatus == o.source.status && t.observedAt == o.now
            && t.eventSequence == SequenceBefore(o) + if Differs(o) then 1 else 0
  {
  }
}
