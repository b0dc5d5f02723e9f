/** The reconciler that turns what it observes of stays and cleaning tasks into
    message jobs, and what the runner's writes do to those jobs. */
module Automation {
  import opened Wrappers
  import opened Messaging

  const LATENESS_MS := 60 * 60 * 1000
  const WEEK_MS := 7 * 24 * 60 * 60 * 1000
  const DAY_MS := 24 * 60 * 60 * 1000
  const HOUR_MS := 60 * 60 * 1000
  const SEOUL_OFFSET_HOURS := 9

  datatype SourceStatus = Active | Cancelled | Completed

  datatype Source = Source(
    subject: Subject, version: int, status: SourceStatus, eligible: bool,
    createdAt: int, endAt: int, checkInAt: int, fingerprint: string)

  datatype JobStatus = Pending | Blocked | Skipped | OutcomeUnknown | DispatchFailed | Dispatched

  datatype Reason =
    | BeforeActivation | ShortNotice | MissedWindow | SecurityRebaseline | SourceChanged | SourceClosed
    | NotReady | DeliveryUnknown | DeliveryFailed

  datatype Job = Job(
    subject: Subject, kind: MessageKind, sourceVersion: int, sourceFingerprint: string, dueAt: int,
    status: JobStatus, reason: Option<Reason>, dispatchId: Option<nat>)

  datatype Target = Target(
    sourceVersion: int, fingerprint: string, observedStatus: SourceStatus, observedAt: int, eventSequence: nat)

  type Jobs = map<JobKey, Job>

  type Targets = map<Subject, Target>

  predicate IsReminder(kind: MessageKind) {
    kind == GuestCheckin || kind == GuestCheckout
  }

  predicate IsCancel(kind: MessageKind) {
    kind == GuestCancel || kind == StaffCancel
  }

  /** Still to be sent, and not yet tied to a dispatch. */
  predicate Live(job: Job) {
    job.dispatchId.None? && (job.status == Pending || job.status == Blocked)
  }

  function CheckInReminderAt(checkInAt: int): int {
    checkInAt - WEEK_MS
  }

  /** The configured Korean hour of the calendar day before departure. */
  function CheckoutReminderAt(checkOutAt: int, koreaHour: int): int {
    ((checkOutAt + SEOUL_OFFSET_HOURS * HOUR_MS) / DAY_MS - 1) * DAY_MS
    + (koreaHour - SEOUL_OFFSET_HOURS) * HOUR_MS
  }

  // ---------------------------------------------------------------- one observation, job by job

  /** One call of `observe`, with the target row it found. */
  datatype Observation = Observation(
    source: Source, previous: Option<Target>, activatedAt: int, now: int, rebaseline: bool, hour: int)
  {
    predicate Closed() {
      || !source.eligible || source.status == Completed
      || (source.subject.kind == StaySubject && source.endAt <= now)
    }

    predicate Changed() {
      previous.Some? && previous.value.fingerprint != source.fingerprint
    }

    function Sequence(): nat {
      (if previous.Some? then previous.value.eventSequence else 0) + (if Changed() then 1 else 0)
    }

    /** The notice, if any, that this observation gives rise to. */
    function Notice(): Option<MessageKind> {
      if Closed() then None
      else if Changed() && !rebaseline then
        Some(if source.subject.kind == StaySubject
             then (if source.status == Cancelled then GuestCancel else GuestChange)
             else (if source.status == Cancelled then StaffCancel else StaffChange))
      else if && previous.None? && source.status == Active && source.subject.kind == TaskSubject
              && source.createdAt >= activatedAt
      then Some(StaffAssignment)
      else None
    }

    predicate Reminds() {
      !Closed() && source.subject.kind == StaySubject && source.status == Active
    }
  }

  function Skip(job: Job, reason: Reason): Job {
    job.(status := Skipped, reason := Some(reason))
  }

  function EventKeyOf(source: Source, kind: MessageKind, sequence: nat): JobKey {
    JobKey.Event(source.subject, kind, sequence, source.version)
  }

  function NewJob(source: Source, kind: MessageKind, dueAt: int, reason: Option<Reason>): Job {
    Job(source.subject, kind, source.version, source.fingerprint, dueAt,
        if reason.Some? then Skipped else Pending, reason, None)
  }

  function ReminderReason(dueAt: int, source: Source, activatedAt: int, now: int): Option<Reason> {
    if dueAt < activatedAt then Some(BeforeActivation)
    else if dueAt < source.createdAt then Some(ShortNotice)
    else if now - dueAt > LATENESS_MS then Some(MissedWindow)
    else None
  }

  function RebuiltReminder(job: Option<Job>, kind: MessageKind, dueAt: int, o: Observation): Option<Job> {
    if job.Some? && (job.value.dispatchId.Some? || job.value.status !in {Pending, Blocked, Skipped}) then job
    else Some(NewJob(o.source, kind, dueAt, ReminderReason(dueAt, o.source, o.activatedAt, o.now)))
  }

  function Closing(key: JobKey, job: Option<Job>, o: Observation): Option<Job> {
    if && job.Some? && key.subject == o.source.subject && Live(job.value)
       && (o.Closed() || (o.source.status == Cancelled && !IsCancel(key.kind)))
    then Some(Skip(job.value, SourceClosed)) else job
  }

  function Reminding(key: JobKey, job: Option<Job>, o: Observation): Option<Job> {
    if !o.Reminds() then job
    else if key == Reminder(o.source.subject, GuestCheckin) then
      RebuiltReminder(job, GuestCheckin, CheckInReminderAt(o.source.checkInAt), o)
    else if key == Reminder(o.source.subject, GuestCheckout) then
      RebuiltReminder(job, GuestCheckout, CheckoutReminderAt(o.source.endAt, o.hour), o)
    else job
  }

  function Dropping(key: JobKey, job: Option<Job>, drops: bool, reason: Reason, o: Observation): Option<Job> {
    if drops && job.Some? && key.subject == o.source.subject && Live(job.value) && !IsReminder(key.kind)
    then Some(Skip(job.value, reason)) else job
  }

  function Noticing(key: JobKey, job: Option<Job>, o: Observation): Option<Job> {
    if job.None? && o.Notice().Some? && key == EventKeyOf(o.source, o.Notice().value, o.Sequence())
    then Some(NewJob(o.source, o.Notice().value, o.now, None)) else job
  }

  function Versioning(key: JobKey, job: Option<Job>, o: Observation): Option<Job> {
    if && job.Some? && key.subject == o.source.subject && Live(job.value)
       && job.value.sourceFingerprint == o.source.fingerprint
    then Some(job.value.(sourceVersion := o.source.version)) else job
  }

  predicate RebaselineDrops(o: Observation) {
    o.rebaseline && o.previous.Some?
  }

  predicate ChangeDrops(o: Observation) {
    !o.Closed() && o.Changed() && !o.rebaseline
  }

  /** What one observation makes of the job with this key, step by step. */
  function ObservedJob(key: JobKey, job: Option<Job>, o: Observation): Option<Job> {
    var reminded := Reminding(key, Closing(key, job, o), o);
    var rebaselined := Dropping(key, reminded, RebaselineDrops(o), SecurityRebaseline, o);
    var changed := Dropping(key, rebaselined, ChangeDrops(o), SourceChanged, o);
    Versioning(key, Noticing(key, changed, o), o)
  }

  function Find<K, V>(m: map<K, V>, key: K): Option<V> {
    if key in m then Some(m[key]) else None
  }

  /** `after` is the job table that one observation leaves behind. */
  ghost predicate Observed(before: Jobs, o: Observation, after: Jobs) {
    forall key: JobKey :: Find(after, key) == ObservedJob(key, Find(before, key), o)
  }

  function ObservedTarget(o: Observation): Target {
    Target(o.source.version, o.source.fingerprint, o.source.status, o.now, o.Sequence())
  }

  /** A job's columns agree with its key. */
  predicate Keyed(key: JobKey, job: Job) {
    && job.subject == key.subject && job.kind == key.kind
    && (key.Reminder? <==> IsReminder(key.kind))
    && (key.Reminder? ==> key.subject.kind == StaySubject)
  }

  predicate WellKeyed(jobs: Jobs) {
    forall key :: key in jobs ==> Keyed(key, jobs[key])
  }

  // ---------------------------------------------------------------- the store

  class AutomationStore {
    var jobs: Jobs
    var targets: Targets
    const hour: int

    constructor (hour: int)
      ensures jobs == map[] && targets == map[] && this.hour == hour
    {
      jobs, targets := map[], map[];
      this.hour := hour;
    }

    /** The bulk update that closes the subject's live jobs. */
    method CloseJobs(o: Observation)
      requires WellKeyed(jobs)
      modifies this`jobs
      ensures WellKeyed(jobs)
      ensures forall key: JobKey :: Find(jobs, key) == Closing(key, Find(old(jobs), key), o)
    {
      if o.Closed() || o.source.status == Cancelled {
        jobs := map key | key in jobs ::
                  var job := jobs[key];
                  if && job.subject == o.source.subject && Live(job) && (o.Closed() || !IsCancel(job.kind))
                  then Skip(job, SourceClosed) else job;
      }
    }

    method WriteReminder(o: Observation, kind: MessageKind, dueAt: int)
      requires WellKeyed(jobs) && IsReminder(kind) && o.source.subject.kind == StaySubject
      modifies this`jobs
      ensures WellKeyed(jobs)
      ensures forall key: JobKey ::
                Find(jobs, key) == if key == Reminder(o.source.subject, kind)
                                   then RebuiltReminder(Find(old(jobs), key), kind, dueAt, o)
                                   else Find(old(jobs), key)
    {
      var reason := if dueAt < o.activatedAt then Some(BeforeActivation)
                    else if dueAt < o.source.createdAt then Some(ShortNotice)
                    else if o.now - dueAt > LATENESS_MS then Some(MissedWindow)
                    else None;
      var key := Reminder(o.source.subject, kind);
      if key in jobs && (jobs[key].dispatchId.Some? || jobs[key].status !in {Pending, Blocked, Skipped}) {
        return;
      }
      jobs := jobs[key := NewJob(o.source, kind, dueAt, reason)];
    }

    method RemindGuest(o: Observation)
      requires WellKeyed(jobs)
      modifies this`jobs
      ensures WellKeyed(jobs)
      ensures forall key: JobKey :: Find(jobs, key) == Reminding(key, Find(old(jobs), key), o)
    {
      if !o.Closed() && o.source.subject.kind == StaySubject && o.source.status == Active {
        WriteReminder(o, GuestCheckin, CheckInReminderAt(o.source.checkInAt));
        WriteReminder(o, GuestCheckout, CheckoutReminderAt(o.source.endAt, o.hour));
      }
    }

    /** The bulk update that drops the subject's live notices. */
    method DropNotices(drops: bool, reason: Reason, o: Observation)
      requires WellKeyed(jobs)
      modifies this`jobs
      ensures WellKeyed(jobs)
      ensures forall key: JobKey :: Find(jobs, key) == Dropping(key, Find(old(jobs), key), drops, reason, o)
    {
      if drops {
        jobs := map key | key in jobs ::
                  var job := jobs[key];
                  if job.subject == o.source.subject && Live(job) && !IsReminder(job.kind)
                  then Skip(job, reason) else job;
      }
    }

    method WriteEvent(source: Source, kind: MessageKind, now: int, sequence: nat)
      requires WellKeyed(jobs) && !IsReminder(kind)
      modifies this`jobs
      ensures WellKeyed(jobs)
      ensures var key := EventKeyOf(source, kind, sequence);
              jobs == if key in old(jobs) then old(jobs) else old(jobs)[key := NewJob(source, kind, now, None)]
    {
      var key := EventKeyOf(source, kind, sequence);
      if key !in jobs {
        jobs := jobs[key := NewJob(source, kind, now, None)];
      }
    }

    method NoticeChange(o: Observation)
      requires WellKeyed(jobs)
      modifies this`jobs
      ensures WellKeyed(jobs)
      ensures forall key: JobKey :: Find(jobs, key) == Noticing(key, Find(old(jobs), key), o)
    {
      if !o.Closed() && o.Changed() && !o.rebaseline {
        var kind := if o.source.subject.kind == StaySubject
                    then (if o.source.status == Cancelled then GuestCancel else GuestChange)
                    else (if o.source.status == Cancelled then StaffCancel else StaffChange);
        WriteEvent(o.source, kind, o.now, o.Sequence());
      } else if && o.previous.None? && !o.Closed() && o.source.status == Active
                && o.source.subject.kind == TaskSubject && o.source.createdAt >= o.activatedAt {
        WriteEvent(o.source, StaffAssignment, o.now, o.Sequence());
      }
    }

    /** Revision bumps that change nothing material must not strand queued work. */
    method FollowVersion(o: Observation)
      requires WellKeyed(jobs)
      modifies this`jobs
      ensures WellKeyed(jobs)
      ensures forall key: JobKey :: Find(jobs, key) == Versioning(key, Find(old(jobs), key), o)
    {
      jobs := map key | key in jobs ::
                var job := jobs[key];
                if && job.subject == o.source.subject && Live(job)
                   && job.sourceFingerprint == o.source.fingerprint
                then job.(sourceVersion := o.source.version) else job;
    }

    /** One observation: a single transaction over the subject's jobs and target. */
    method Observe(source: Source, activatedAt: int, now: int, rebaseline: bool)
      requires WellKeyed(jobs)
      modifies this`jobs, this`targets
      ensures var o := Observation(source, Find(old(targets), source.subject), activatedAt, now, rebaseline, hour);
              && Observed(old(jobs), o, jobs)
              && targets == old(targets)[source.subject := ObservedTarget(o)]
      ensures WellKeyed(jobs)
    {
      var o := Observation(source, Find(targets, source.subject), activatedAt, now, rebaseline, hour);
      CloseJobs(o);
      RemindGuest(o);
      DropNotices(rebaseline && o.previous.Some?, SecurityRebaseline, o);
      DropNotices(!o.Closed() && o.Changed() && !rebaseline, SourceChanged, o);
      NoticeChange(o);
      FollowVersion(o);
      targets := targets[source.subject := Target(source.version, source.fingerprint, source.status, now,
                                                  o.Sequence())];
    }
  }

  // ---------------------------------------------------------------- the runner's writes

  /** A dispatch that is Sending or Unknown, Failed, or anything else. */
  datatype DispatchOutcome = Unclear | Rejected | Handed

  datatype RunnerWrite =
    | Park(status: JobStatus, reason: Reason)
    | Tie(dispatchId: nat, outcome: DispatchOutcome)

  function WrittenJob(job: Job, write: RunnerWrite): Job {
    match write
    case Park(status, reason) => job.(status := status, reason := Some(reason))
    case Tie(dispatchId, Unclear) =>
      job.(status := OutcomeUnknown, dispatchId := Some(dispatchId), reason := Some(DeliveryUnknown))
    case Tie(dispatchId, Rejected) =>
      job.(status := DispatchFailed, dispatchId := Some(dispatchId), reason := Some(DeliveryFailed))
    case Tie(dispatchId, Handed) =>
      job.(status := Dispatched, dispatchId := Some(dispatchId), reason := None)
  }

  function Written(jobs: Jobs, key: JobKey, write: RunnerWrite): Jobs {
    if key in jobs then jobs[key := WrittenJob(jobs[key], write)] else jobs
  }
}
