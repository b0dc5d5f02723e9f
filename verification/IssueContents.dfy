/** What each request leaves of an issue, field by field: which event it records, what it
    changes of the issue, and when it is refused for what. */
module IssueContents {
  import opened Wrappers
  import opened IssueHistory

  // ---------------------------------------------------------------- one more event

  /** What no request ever changes of an issue. */
  predicate SameReport(a: Record, b: Record) {
    && a.id == b.id && a.propertyId == b.propertyId && a.title == b.title && a.origin == b.origin
    && a.reportedAt == b.reportedAt
  }

  predicate SameProcessing(a: Record, b: Record) {
    && a.status == b.status && a.resolvedAt == b.resolvedAt && a.resolvedBy == b.resolvedBy
    && a.recurrenceOf == b.recurrenceOf
  }

  predicate SameCancellation(a: Record, b: Record) {
    a.cancelledAt == b.cancelledAt && a.cancellationReason == b.cancellationReason
  }

  /** One event is added that tells of the change from the issue as it was to the issue as
      it is now, a version later and not before the clock. */
  predicate Records(h: History, next: History, kind: EventKind, actor: Actor, note: Option<string>, eventId: string,
                    clock: int)
  {
    && |next.events| == |h.events| + 1 && h.events <= next.events
    && SameReport(h.issue, next.issue) && next.issue.version == h.issue.version + 1
    && h.issue.updatedAt < next.issue.updatedAt && clock <= next.issue.updatedAt
    && (next.issue.updatedAt == clock || next.issue.updatedAt == h.issue.updatedAt + 1)
    && (var e := next.events[|h.events|];
        && e.id == eventId && e.kind == kind && e.actor == actor && e.note == note
        && e.version == next.issue.version && e.createdAt == next.issue.updatedAt && e.snapshot == next.issue
        && e.fromStatus == Some(h.issue.status) && e.toStatus == next.issue.status)
  }

  // ---------------------------------------------------------------- an administrator's action

  predicate ByAdministrator(actor: Option<Actor>) {
    actor.Some? && actor.value.source == AdminSession && actor.value.role == Admin && actor.value.userId.Some?
  }

  /** The event that tells of a change from one status to another. */
  predicate Tells(kind: EventKind, from: Status, to: Option<Status>) {
    match kind
    case Updated => to.None?
    case ResolvedEvent => from != Resolved && to == Some(Resolved)
    case Reopened => from == Resolved && to == Some(InProgress)
    case StatusChanged => from == New && to == Some(InProgress)
    case _ => false
  }

  /** The issue has what was asked for, and everything else as before. */
  predicate Takes(issue: Record, next: Record, a: Action) {
    && next.status == (if a.status.Some? then a.status.value else issue.status)
    && next.isUrgent == (if a.isUrgent.Some? then a.isUrgent.value else issue.isUrgent)
    && next.recurrenceOf == (if a.recurrence.Some? then a.recurrence.value else issue.recurrenceOf)
    && next.description == issue.description && SameCancellation(issue, next)
    && (a.status.None? ==> next.resolvedAt == issue.resolvedAt && next.resolvedBy == issue.resolvedBy)
    && (a.status == Some(Resolved) ==>
          && next.resolvedAt == Some(next.updatedAt) && a.actor.Some? && next.resolvedBy == a.actor.value.userId)
    && (a.status.Some? && a.status != Some(Resolved) ==> next.resolvedAt.None? && next.resolvedBy.None?)
  }

  /** The issue is open to this administrator, who has seen it as it is. */
  predicate Seen(h: History, a: Action) {
    && ByAdministrator(a.actor) && h.issue.cancelledAt.None?
    && h.issue.version == a.expectedVersion && h.issue.version < MAX_VERSION
  }

  /** What is wrong with the change that is asked for, if anything; checked in this order. */
  predicate WrongWith(h: History, a: Action, error: IssueError) {
    var urgent, linked := a.isUrgent == Some(h.issue.isUrgent), a.recurrence == Some(h.issue.recurrenceOf);
    var refused := a.recurrence.Some? && a.recurrence.value.Some? && !a.targetAccepted;
    var from, to := h.issue.status, a.status;
    match error
    case UrgencyUnchanged => urgent
    case RecurrenceUnchanged => !urgent && linked
    case RecurrenceRefused => !urgent && !linked && refused
    case StatusUnchanged => !urgent && !linked && !refused && to == Some(from)
    case NoteRequired =>
      && !urgent && !linked && !refused && a.note.None?
      && ((to == Some(Resolved) && from != Resolved) || (to == Some(InProgress) && from == Resolved))
    case InvalidStatusChange => !urgent && !linked && !refused && to == Some(New) && from != New
    case _ => false
  }

  /** Who may act on an issue, and on which version of it. */
  lemma ActionNeedsSight(h: History, a: Action)
    requires Consistent(h) && Admissible(h, Act(a))
    ensures var r := Acted(h, a);
            && (r == Err(Unauthenticated) <==> !ByAdministrator(a.actor))
            && (r == Err(IssueCancelled) <==> ByAdministrator(a.actor) && h.issue.cancelledAt.Some?)
            && (r == Err(IssueChanged) <==>
                  && ByAdministrator(a.actor) && h.issue.cancelledAt.None?
                  && (h.issue.version != a.expectedVersion || MAX_VERSION <= h.issue.version))
  {
    ActedKeeps(h, a);
  }

  /** Whoever has seen the issue is refused exactly for what is wrong with the change. */
  lemma ActionRefusedIff(h: History, a: Action, error: IssueError)
    requires Consistent(h) && Admissible(h, Act(a)) && Seen(h, a)
    ensures Acted(h, a) == Err(error) <==> WrongWith(h, a, error)
  {
    ConsistentIsReadable(h);
    ActedKeeps(h, a);
  }

  /** An action that goes through records one event by its administrator, with the note
      given, and leaves the issue as asked. */
  lemma ActionLeaves(h: History, a: Action)
    requires Consistent(h) && Admissible(h, Act(a)) && Acted(h, a).Ok?
    ensures var next := Acted(h, a).value;
            && Seen(h, a) && Takes(h.issue, next.issue, a)
            && (var e := next.events[|h.events|];
                && Records(h, next, e.kind, a.actor.value, a.note, a.eventId, a.clock)
                && Tells(e.kind, h.issue.status, a.status) && e.sourceRevision.None? && e.request.None?)
  {
    ActedKeeps(h, a);
  }

  // ---------------------------------------------------------------- cancelling and restoring

  /** A cancellation of an issue that is not cancelled, or a restoration of one that is, by
      an administrator who has seen it as it is, changes that alone. */
  lemma CancellationMeans(h: History, c: Cancellation)
    requires Consistent(h) && Admissible(h, CancelOrRestore(c)) && h.issue.version <= c.expectedVersion
    ensures var (next, r) := Cancel(h, c);
            && (r.Err? ==> next == h)
            && (r == Err(Unauthenticated) <==> !ByAdministrator(c.actor))
            && (r == Err(IssueChanged) <==>
                  ByAdministrator(c.actor) && (h.issue.version != c.expectedVersion || MAX_VERSION <= h.issue.version))
            && (r == Err(InvalidCancellation) <==>
                  && ByAdministrator(c.actor) && h.issue.version == c.expectedVersion < MAX_VERSION
                  && (if c.kind == Cancelled then h.issue.cancelledAt.Some? else h.issue.cancelledAt.None?))
            && (r.Err? ==> r.error in {Unauthenticated, IssueChanged, InvalidCancellation})
            && (r.Ok? ==>
                  && Records(h, next, c.kind, c.actor.value, Some(c.reason), c.eventId, c.clock)
                  && SameProcessing(h.issue, next.issue) && next.issue.description == h.issue.description
                  && next.issue.isUrgent == h.issue.isUrgent
                  && (c.kind == Cancelled ==>
                        && next.issue.cancelledAt == Some(next.issue.updatedAt)
                        && next.issue.cancellationReason == Some(c.reason))
                  && (c.kind == Restored ==>
                        next.issue.cancelledAt.None? && next.issue.cancellationReason.None?)
                  && (var e := next.events[|h.events|];
                      && e.sourceRevision.None?
                      && e.request == Some(CancellationRequest(c.actor.value.userId.value, c.kind, c.expectedVersion,
                                                               c.reason)))
                  && (var x := r.value;
                      && x.issueId == h.issue.id && x.eventId == c.eventId && x.version == next.issue.version
                      && x.status == next.issue.status && x.updatedAt == next.issue.updatedAt
                      && x.cancelledAt == next.issue.cancelledAt
                      && x.cancellationReason == next.issue.cancellationReason))
  {
    ConsistentIsReadable(h);
  }

  // ---------------------------------------------------------------- corrections and reports

  /** A correction reaches the issue: a corrected abnormal answer describes it from now on
      (and sets its urgency if the guest gave it); how the issue is dealt with stays. */
  lemma CorrectionMeans(h: History, c: Correction)
    requires Consistent(h)
    ensures var r := Corrected(h, c);
            && (r.Err? <==> MAX_VERSION <= h.issue.version) && (r.Err? ==> r.error == IssueChanged)
            && (r.Ok? ==>
                  var next := r.value;
                  && Records(h, next, Updated, c.actor, Some(c.note), c.eventId, c.clock)
                  && SameProcessing(h.issue, next.issue) && SameCancellation(h.issue, next.issue)
                  && (if c.abnormal then next.issue.description == c.description
                      else next.issue.description == h.issue.description)
                  && (if c.abnormal && c.byGuest then next.issue.isUrgent == c.isUrgent
                      else next.issue.isUrgent == h.issue.isUrgent)
                  && next.events[|h.events|].sourceRevision == Some(c.revisionId)
                  && next.events[|h.events|].request.None?)
  {
    ConsistentIsReadable(h);
  }

  /** The issue says what was reported and that nobody has dealt with it yet. */
  predicate Describes(issue: Record, r: Report) {
    && issue.id == r.id && issue.propertyId == r.propertyId && issue.title == r.title
    && issue.description == r.description && issue.isUrgent == r.isUrgent && issue.origin == r.origin
    && issue.reportedAt == r.reportedAt && issue.updatedAt == r.reportedAt && issue.status == New
    && issue.recurrenceOf.None? && issue.resolvedAt.None? && issue.resolvedBy.None?
    && issue.cancelledAt.None? && issue.cancellationReason.None?
  }

  predicate FirstEvent(e: Event, r: Report, version: int, kind: EventKind, note: Option<string>, id: string) {
    && e.id == id && e.version == version && e.kind == kind && e.actor == r.actor && e.note == note
    && e.toStatus == New && e.createdAt == r.reportedAt && e.request.None?
    && Describes(e.snapshot, r) && e.snapshot.version == version
    && e.sourceRevision == if r.origin.Some? then Some(r.origin.value.revisionId) else None
  }

  /** A report begins an issue with its own words, and with the repair if one came along. */
  lemma ReportMeans(r: Report)
    ensures var h := Born(r);
            && Describes(h.issue, r) && h.issue.version == |h.events| == (if r.repair.Some? then 2 else 1)
            && FirstEvent(h.events[0], r, 1, Reported, r.description, r.reportEventId)
            && h.events[0].fromStatus.None?
            && (r.repair.Some? ==>
                  && FirstEvent(h.events[1], r, 2, RepairReported, r.repair.value, r.repairEventId)
                  && h.events[1].fromStatus == Some(New))
  {
  }

  // ---------------------------------------------------------------- histories that contradict themselves

  /** No request touches an issue that no event of its version tells of as it is. */
  lemma ContradictionIsRefused(h: History, step: Step)
    requires forall e :: e in h.events ==> !(e.version == h.issue.version && e.snapshot == h.issue)
    ensures Apply(h, step) == h
    ensures step.CancelOrRestore? && ByAdministrator(step.cancellation.actor) ==>
              Cancel(h, step.cancellation).1 == Err(InvalidRecord)
    ensures step.Act? && Seen(h, step.action) ==> Acted(h, step.action) == Err(InvalidRecord)
    ensures step.Correct? ==> Corrected(h, step.correction) == Err(InvalidRecord)
  {
    var found := EventByVersion(h, h.issue.version);
    if found.Some? {
      FirstWithIn(h.events, h.issue.version);
      assert found.value in h.events;
    }
  }

  lemma {:induction false} FirstWithIn(events: seq<Event>, version: int)
    requires exists k :: 0 <= k < |events| && events[k].version == version
    ensures FirstWith(events, version) in events && FirstWith(events, version).version == version
  {
    if events[0].version != version {
      var k :| 0 <= k < |events| && events[k].version == version;
      assert events[1..][k - 1].version == version;
      FirstWithIn(events[1..], version);
    }
  }
}
