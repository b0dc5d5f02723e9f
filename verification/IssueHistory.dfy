/** The history of one issue: its row, the events that tell how it came about,
    and every request that extends them. */
module IssueHistory {
  import opened Wrappers

  const MAX_VERSION := 2147483647
  const MAX_NOTE := 2000

  datatype Status = New | InProgress | Resolved

  datatype EventKind =
    | Reported | RepairReported | Updated | StatusChanged | ResolvedEvent | Reopened | Cancelled | Restored

  datatype Role = Guest | Staff | Admin

  datatype ActorSource = AdminSession | PrivateLink | StaffLink

  datatype Actor = Actor(source: ActorSource, userId: Option<string>, role: Role, name: string)

  /** Where an issue that a checklist reported comes from. */
  datatype Origin = Origin(submissionId: string, itemId: string, revisionId: string)

  /** The row of an issue, which is also what a snapshot holds. */
  datatype Record = Record(
    id: string, propertyId: string, title: string, description: Option<string>, isUrgent: bool, status: Status,
    origin: Option<Origin>, recurrenceOf: Option<string>, version: int, reportedAt: int,
    resolvedAt: Option<int>, resolvedBy: Option<string>, cancelledAt: Option<int>,
    cancellationReason: Option<string>, updatedAt: int)

  /** A cancellation or restoration request. Its digest is injective, so it stands
      for the request itself. */
  datatype CancellationRequest = CancellationRequest(actorId: string, kind: EventKind, expectedVersion: int,
                                                     reason: string)

  datatype Event = Event(
    id: string, version: int, kind: EventKind, actor: Actor, sourceRevision: Option<string>,
    note: Option<string>, fromStatus: Option<Status>, toStatus: Status, snapshot: Record,
    request: Option<CancellationRequest>, createdAt: int)

  datatype History = History(issue: Record, events: seq<Event>)

  datatype IssueError =
    | Unauthenticated | IssueCancelled | IssueChanged | InvalidRecord | UrgencyUnchanged | RecurrenceUnchanged
    | RecurrenceRefused | StatusUnchanged | NoteRequired | ReasonRequired | InvalidStatusChange
    | InvalidCancellation

  // ---------------------------------------------------------------- reading a history

  predicate RecordValid(r: Record) {
    && 1 <= r.version <= MAX_VERSION
    && (r.status == Resolved <==> r.resolvedAt.Some?) && (r.status == Resolved <==> r.resolvedBy.Some?)
    && (r.cancelledAt.None? ==> r.cancellationReason.None?)
    && r.recurrenceOf != Some(r.id)
  }

  predicate ActorValid(actor: Actor) {
    actor.userId.None? ==> actor.role == Guest
  }

  predicate AdminActor(actor: Actor) {
    actor.source == AdminSession && actor.role == Admin && actor.userId.Some?
  }

  function EventByVersion(h: History, version: int): Option<Event> {
    if exists k :: 0 <= k < |h.events| && h.events[k].version == version
    then Some(FirstWith(h.events, version)) else None
  }

  function FirstWith(events: seq<Event>, version: int): Event
    requires exists k :: 0 <= k < |events| && events[k].version == version
  {
    if events[0].version == version then events[0] else FirstWith(events[1..], version)
  }

  /** The latest event carries exactly the row. */
  predicate CurrentRecordAccepts(issue: Record, event: Event) {
    event.version == issue.version && RecordValid(event.snapshot) && event.snapshot == issue
  }

  /** What every event must satisfy to be shown. */
  predicate MapEventAccepts(issue: Record, e: Event) {
    && 1 <= e.version <= issue.version
    && RecordValid(e.snapshot) && e.snapshot.version == e.version
    && e.snapshot.id == issue.id && e.snapshot.propertyId == issue.propertyId && e.snapshot.origin == issue.origin
    && (e.snapshot.origin.Some? && (e.kind == Reported || e.kind == RepairReported) ==>
          && e.sourceRevision.Some?
          && (e.kind == Reported ==> e.sourceRevision == Some(e.snapshot.origin.value.revisionId)))
    && e.toStatus == e.snapshot.status
    && (e.version == 1 ==> e.kind == Reported && e.fromStatus.None?)
    && e.createdAt == e.snapshot.updatedAt
    && (e.note.Some? ==> |e.note.value| <= MAX_NOTE)
    && ActorValid(e.actor)
  }

  /** The detail of an issue can be read. */
  predicate Readable(h: History) {
    && EventByVersion(h, h.issue.version).Some?
    && CurrentRecordAccepts(h.issue, EventByVersion(h, h.issue.version).value)
    && MapEventAccepts(h.issue, EventByVersion(h, h.issue.version).value)
    && EventByVersion(h, 1).Some?
    && MapEventAccepts(h.issue, EventByVersion(h, 1).value)
    && EventByVersion(h, 1).value.kind == Reported
  }

  /** What a guest's correction checks before it extends the history. */
  predicate GuestReadable(h: History) {
    && EventByVersion(h, h.issue.version).Some?
    && var e := EventByVersion(h, h.issue.version).value;
       && CurrentRecordAccepts(h.issue, e) && ActorValid(e.actor)
       && e.toStatus == e.snapshot.status && e.createdAt == e.snapshot.updatedAt
       && (e.version == 1 ==> e.kind == Reported && e.fromStatus.None?)
  }

  // ---------------------------------------------------------------- extending a history

  /** An administrator's action: a note with at most one kind of change. */
  datatype Action = Action(
    expectedVersion: int, actor: Option<Actor>, note: Option<string>, status: Option<Status>,
    isUrgent: Option<bool>, recurrence: Option<Option<string>>, targetAccepted: bool, eventId: string, clock: int)

  function StatusEvent(from: Status, to: Status, note: Option<string>): Result<EventKind, IssueError> {
    if from == to then Err(StatusUnchanged)
    else if to == Resolved then if note.None? then Err(NoteRequired) else Ok(ResolvedEvent)
    else if to == InProgress && from == New then Ok(StatusChanged)
    else if to == InProgress && from == Resolved then if note.None? then Err(NoteRequired) else Ok(Reopened)
    else Err(InvalidStatusChange)
  }

  function Extended(h: History, next: Record, kind: EventKind, actor: Actor, sourceRevision: Option<string>,
                    note: Option<string>, request: Option<CancellationRequest>, eventId: string): History {
    History(next, h.events + [Event(eventId, next.version, kind, actor, sourceRevision, note, Some(h.issue.status),
                                    next.status, next, request, next.updatedAt)])
  }

  /** The clock never repeats the time of the last write. */
  function Later(h: History, clock: int): int {
    Max(clock, h.issue.updatedAt + 1)
  }

  function ActedRecord(issue: Record, a: Action, actorId: Option<string>, now: int): Record {
    var status := if a.status.Some? then a.status.value else issue.status;
    issue.(status := status,
           isUrgent := if a.isUrgent.Some? then a.isUrgent.value else issue.isUrgent,
           recurrenceOf := if a.recurrence.Some? then a.recurrence.value else issue.recurrenceOf,
           version := issue.version + 1, updatedAt := now,
           resolvedAt := if a.status.None? then issue.resolvedAt else if status == Resolved then Some(now) else None,
           resolvedBy := if a.status.None? then issue.resolvedBy else if status == Resolved then actorId else None)
  }

  function ActionKind(from: Status, a: Action): Result<EventKind, IssueError> {
    if a.status.None? then Ok(Updated) else StatusEvent(from, a.status.value, a.note)
  }

  function ActedHistory(h: History, a: Action, kind: EventKind): History
    requires a.actor.Some?
  {
    Extended(h, ActedRecord(h.issue, a, a.actor.value.userId, Later(h, a.clock)), kind, a.actor.value, None, a.note,
             None, a.eventId)
  }

  function Acted(h: History, a: Action): Result<History, IssueError> {
    if a.actor.None? || !AdminActor(a.actor.value) then Err(Unauthenticated)
    else if h.issue.cancelledAt.Some? then Err(IssueCancelled)
    else if h.issue.version != a.expectedVersion || h.issue.version >= MAX_VERSION then Err(IssueChanged)
    else if !Readable(h) then Err(InvalidRecord)
    else if a.isUrgent == Some(h.issue.isUrgent) then Err(UrgencyUnchanged)
    else if a.recurrence == Some(h.issue.recurrenceOf) then Err(RecurrenceUnchanged)
    else if a.recurrence.Some? && a.recurrence.value.Some? && !a.targetAccepted then Err(RecurrenceRefused)
    else
      var kind := ActionKind(h.issue.status, a);
      if kind.Err? then Err(kind.error)
      else
        var next := ActedHistory(h, a, kind.value);
        if Readable(next) then Ok(next) else Err(InvalidRecord)
  }

  datatype Receipt = Receipt(issueId: string, eventId: string, version: int, status: Status, updatedAt: int,
                             cancelledAt: Option<int>, cancellationReason: Option<string>)

  /** A cancellation or restoration, by an administrator if there is one. */
  datatype Cancellation = Cancellation(kind: EventKind, expectedVersion: int, actor: Option<Actor>, reason: string,
                                       eventId: string, clock: int)

  function ReceiptOf(issueId: string, e: Event): Receipt {
    Receipt(issueId, e.id, e.version, e.snapshot.status, e.snapshot.updatedAt, e.snapshot.cancelledAt,
            e.snapshot.cancellationReason)
  }

  function RequestOf(c: Cancellation): CancellationRequest
    requires c.actor.Some? && c.actor.value.userId.Some?
  {
    CancellationRequest(c.actor.value.userId.value, c.kind, c.expectedVersion, c.reason)
  }

  /** The event a repeated request finds is the one it made itself. */
  predicate IsRetry(c: Cancellation, e: Event)
    requires c.actor.Some? && c.actor.value.userId.Some?
  {
    && e.kind == c.kind && e.actor.source == AdminSession && e.actor.userId == c.actor.value.userId
    && e.request == Some(RequestOf(c))
  }

  predicate RetryShown(c: Cancellation, h: History, e: Event) {
    && MapEventAccepts(h.issue, e)
    && e.version == c.expectedVersion + 1 && e.actor.role == Admin && e.note == Some(c.reason)
    && e.fromStatus == Some(e.toStatus) && e.sourceRevision.None?
    && (if c.kind == Cancelled
        then e.snapshot.cancelledAt == Some(e.snapshot.updatedAt) && e.snapshot.cancellationReason == Some(c.reason)
        else e.snapshot.cancelledAt.None? && e.snapshot.cancellationReason.None?)
  }

  function Retried(h: History, c: Cancellation): Result<Receipt, IssueError>
    requires c.actor.Some? && c.actor.value.userId.Some?
  {
    var found := EventByVersion(h, c.expectedVersion + 1);
    if found.None? || !IsRetry(c, found.value) then Err(IssueChanged)
    else if !RetryShown(c, h, found.value) then Err(InvalidRecord)
    else Ok(ReceiptOf(h.issue.id, found.value))
  }

  function CancelledRecord(issue: Record, c: Cancellation, now: int): Record {
    issue.(version := issue.version + 1, updatedAt := now,
           cancelledAt := if c.kind == Cancelled then Some(now) else None,
           cancellationReason := if c.kind == Cancelled then Some(c.reason) else None)
  }

  /** The history after a cancellation or restoration, and the receipt. */
  function Cancel(h: History, c: Cancellation): (History, Result<Receipt, IssueError>) {
    if c.actor.None? || !AdminActor(c.actor.value) then (h, Err(Unauthenticated))
    else if !Readable(h) then (h, Err(InvalidRecord))
    else if c.expectedVersion < h.issue.version then (h, Retried(h, c))
    else if c.expectedVersion != h.issue.version || h.issue.version >= MAX_VERSION then (h, Err(IssueChanged))
    else if (c.kind == Cancelled) == h.issue.cancelledAt.Some? then (h, Err(InvalidCancellation))
    else
      var now := Later(h, c.clock);
      var next := Extended(h, CancelledRecord(h.issue, c, now), c.kind, c.actor.value, None, Some(c.reason),
                           Some(RequestOf(c)), c.eventId);
      (next, Ok(ReceiptOf(h.issue.id, next.events[|h.events|])))
  }

  /** A correction of the answer the issue came from. The answer is absent when it
      was removed; a guest's correction also updates the urgency. */
  datatype Correction = Correction(
    byGuest: bool, abnormal: bool, description: Option<string>, isUrgent: bool, revisionId: string,
    actor: Actor, note: string, eventId: string, clock: int)

  function CorrectedRecord(issue: Record, c: Correction, now: int): Record {
    issue.(version := issue.version + 1, updatedAt := now,
           description := if c.abnormal then c.description else issue.description,
           isUrgent := if c.abnormal && c.byGuest then c.isUrgent else issue.isUrgent)
  }

  /** Corrections reach an issue whether or not it was cancelled. */
  function Corrected(h: History, c: Correction): Result<History, IssueError> {
    if !(if c.byGuest then GuestReadable(h) else Readable(h)) then Err(InvalidRecord)
    else if h.issue.version >= MAX_VERSION then Err(IssueChanged)
    else
      Ok(Extended(h, CorrectedRecord(h.issue, c, Later(h, c.clock)), Updated, c.actor, Some(c.revisionId),
                  Some(c.note), None, c.eventId))
  }

  // ---------------------------------------------------------------- how a history begins

  /** An issue as a checklist or a guest reports it; a maintenance answer may report
      the repair in the same breath. */
  datatype Report = Report(
    id: string, propertyId: string, title: string, description: Option<string>, isUrgent: bool,
    origin: Option<Origin>, actor: Actor, reportedAt: int, repair: Option<Option<string>>,
    reportEventId: string, repairEventId: string)

  function ReportedRecord(r: Report, version: int): Record {
    Record(r.id, r.propertyId, r.title, r.description, r.isUrgent, New, r.origin, None, version, r.reportedAt,
           None, None, None, None, r.reportedAt)
  }

  function RevisionOf(r: Report): Option<string> {
    if r.origin.Some? then Some(r.origin.value.revisionId) else None
  }

  function Born(r: Report): History {
    var report := Event(r.reportEventId, 1, Reported, r.actor, RevisionOf(r), r.description, None, New,
                        ReportedRecord(r, 1), None, r.reportedAt);
    if r.repair.None? then History(ReportedRecord(r, 1), [report])
    else
      History(ReportedRecord(r, 2),
              [report, Event(r.repairEventId, 2, RepairReported, r.actor, RevisionOf(r), r.repair.value, Some(New),
                             New, ReportedRecord(r, 2), None, r.reportedAt)])
  }

  // ---------------------------------------------------------------- what a history keeps

  predicate Follows(before: Event, e: Event) {
    && e.kind != Reported && e.fromStatus == Some(before.toStatus)
    && (if e.kind == RepairReported then e.createdAt == before.createdAt else before.createdAt < e.createdAt)
  }

  /** The k-th event is shown, has its number, and continues the one before. */
  predicate EventSound(h: History, k: nat)
    requires k < |h.events|
  {
    && h.events[k].version == k + 1 && MapEventAccepts(h.issue, h.events[k])
    && (k > 0 ==> Follows(h.events[k - 1], h.events[k]))
    && (h.events[k].kind == RepairReported ==> k == 1)
    && (h.events[k].request.Some? ==> RequestSound(h.events[k]))
  }

  /** An event that carries a request tells the same story as the request. */
  predicate RequestSound(e: Event)
    requires e.request.Some?
  {
    && var q := e.request.value;
       && (q.kind == Cancelled || q.kind == Restored) && e.kind == q.kind
       && e.version == q.expectedVersion + 1 && AdminActor(e.actor) && e.actor.userId == Some(q.actorId)
       && e.note == Some(q.reason) && e.fromStatus == Some(e.toStatus) && e.sourceRevision.None?
       && (if q.kind == Cancelled
           then e.snapshot.cancelledAt == Some(e.snapshot.updatedAt) && e.snapshot.cancellationReason == Some(q.reason)
           else e.snapshot.cancelledAt.None? && e.snapshot.cancellationReason.None?)
  }

  predicate Consistent(h: History) {
    && |h.events| >= 1 && h.issue.version == |h.events| && h.events[|h.events| - 1].snapshot == h.issue
    && forall k {:trigger EventSound(h, k)} :: 0 <= k < |h.events| ==> EventSound(h, k)
  }

  lemma {:induction false} FirstWithAt(events: seq<Event>, k: nat)
    requires k < |events| && forall j :: 0 <= j < k ==> events[j].version != events[k].version
    ensures FirstWith(events, events[k].version) == events[k]
  {
    if k > 0 {
      assert events[1..][k - 1] == events[k];
      FirstWithAt(events[1..], k - 1);
    }
  }

  /** Versions are exactly those from one to the current. */
  lemma VersionsAreExact(h: History, version: int)
    requires Consistent(h)
    ensures EventByVersion(h, version)
            == if 1 <= version <= h.issue.version then Some(h.events[version - 1]) else None
  {
    forall k | 0 <= k < |h.events| ensures h.events[k].version == k + 1 {
      assert EventSound(h, k);
    }
    if 1 <= version <= h.issue.version {
      assert h.events[version - 1].version == version;
      FirstWithAt(h.events, version - 1);
    }
  }

  /** A consistent history is never refused by the checks of its readers. */
  lemma ConsistentIsReadable(h: History)
    requires Consistent(h)
    ensures Readable(h) && GuestReadable(h)
  {
    VersionsAreExact(h, h.issue.version);
    VersionsAreExact(h, 1);
    assert EventSound(h, 0) && EventSound(h, |h.events| - 1);
  }

  lemma ResolvedExactly(h: History, k: nat)
    requires Consistent(h) && k < |h.events|
    ensures h.events[k].snapshot.resolvedAt.Some? <==> h.events[k].snapshot.status == Resolved
    ensures k > 0 ==> h.events[k].fromStatus == Some(h.events[k - 1].toStatus)
    ensures h.issue.resolvedAt.Some? <==> h.issue.status == Resolved
  {
    assert EventSound(h, k) && EventSound(h, |h.events| - 1);
  }

  predicate TimesStrictlyRise(h: History) {
    forall j, k :: 0 <= j < k < |h.events| ==> h.events[j].createdAt < h.events[k].createdAt
  }

  lemma {:induction false} TimesRiseFrom(h: History, j: nat, k: nat)
    requires Consistent(h) && j < k < |h.events|
    ensures h.events[j].createdAt <= h.events[k].createdAt
    ensures (1 <= j || h.events[1].kind != RepairReported) ==> h.events[j].createdAt < h.events[k].createdAt
  {
    assert EventSound(h, k);
    assert EventSound(h, 1);
    if j < k - 1 {
      TimesRiseFrom(h, j, k - 1);
    }
  }

  /** Times strictly rise along a history unless its report came with a repair:
      those two events have the same time. */
  lemma TimesRiseIff(h: History)
    requires Consistent(h)
    ensures TimesStrictlyRise(h) <==> !(2 <= |h.events| && h.events[1].kind == RepairReported)
  {
    if 2 <= |h.events| {
      assert EventSound(h, 1);
      assert h.events[1].kind == RepairReported ==> h.events[0].createdAt == h.events[1].createdAt;
    }
    forall j, k | && 0 <= j < k < |h.events| && !(2 <= |h.events| && h.events[1].kind == RepairReported)
      ensures h.events[j].createdAt < h.events[k].createdAt
    {
      TimesRiseFrom(h, j, k);
    }
  }

  // ---------------------------------------------------------------- every request keeps it

  lemma ExtendedConsistent(h: History, next: Record, kind: EventKind, actor: Actor, sourceRevision: Option<string>,
                           note: Option<string>, request: Option<CancellationRequest>, eventId: string)
    requires Consistent(h) && h.issue.version < MAX_VERSION
    requires RecordValid(next) && next.version == h.issue.version + 1 && h.issue.updatedAt < next.updatedAt
    requires next.id == h.issue.id && next.propertyId == h.issue.propertyId && next.origin == h.issue.origin
    requires kind != Reported && kind != RepairReported && ActorValid(actor)
    requires note.Some? ==> |note.value| <= MAX_NOTE
    requires var after := Extended(h, next, kind, actor, sourceRevision, note, request, eventId);
             request.Some? ==> RequestSound(after.events[|h.events|])
    ensures var after := Extended(h, next, kind, actor, sourceRevision, note, request, eventId);
            Consistent(after) && h.events <= after.events
  {
    var after, n := Extended(h, next, kind, actor, sourceRevision, note, request, eventId), |h.events|;
    assert EventSound(h, n - 1);
    forall k | 0 <= k < |after.events| ensures EventSound(after, k) {
      if k < n {
        assert EventSound(h, k);
        assert after.events[k] == h.events[k];
      }
    }
  }

  predicate ReportAdmissible(r: Report) {
    && ActorValid(r.actor) && (r.description.Some? ==> |r.description.value| <= MAX_NOTE)
    && (r.repair.Some? && r.repair.value.Some? ==> |r.repair.value.value| <= MAX_NOTE)
  }

  lemma BornConsistent(r: Report)
    requires ReportAdmissible(r)
    ensures Consistent(Born(r))
    ensures r.repair.Some? <==> 2 <= |Born(r).events| && Born(r).events[1].kind == RepairReported
  {
    var h := Born(r);
    forall k | 0 <= k < |h.events| ensures EventSound(h, k) {
    }
  }

  datatype Step =
    | Act(action: Action)
    | CancelOrRestore(cancellation: Cancellation)
    | Correct(correction: Correction)

  function Apply(h: History, step: Step): History {
    match step
    case Act(a) => (match Acted(h, a) case Ok(next) => next case Err(_) => h)
    case CancelOrRestore(c) => Cancel(h, c).0
    case Correct(c) => (match Corrected(h, c) case Ok(next) => next case Err(_) => h)
  }

  /** Notes within their limit, a link to another issue than itself, and a
      cancellation that is one. */
  predicate Admissible(h: History, step: Step) {
    match step
    case Act(a) =>
      && (a.note.Some? ==> |a.note.value| <= MAX_NOTE)
      && (a.targetAccepted && a.recurrence.Some? ==> a.recurrence.value != Some(h.issue.id))
    case CancelOrRestore(c) => (c.kind == Cancelled || c.kind == Restored) && |c.reason| <= 1000
    case Correct(c) => ActorValid(c.actor) && |c.note| <= MAX_NOTE
  }

  lemma ActedHistoryKeeps(h: History, a: Action)
    requires Consistent(h) && h.issue.version < MAX_VERSION && a.actor.Some? && AdminActor(a.actor.value)
    requires a.note.Some? ==> |a.note.value| <= MAX_NOTE
    requires a.recurrence.Some? ==> a.recurrence.value != Some(h.issue.id)
    requires ActionKind(h.issue.status, a).Ok?
    ensures var next := ActedHistory(h, a, ActionKind(h.issue.status, a).value);
            Consistent(next) && h.events <= next.events && Readable(next) && |next.events| == |h.events| + 1
  {
    assert EventSound(h, |h.events| - 1);
    var kind := ActionKind(h.issue.status, a).value;
    ExtendedConsistent(h, ActedRecord(h.issue, a, a.actor.value.userId, Later(h, a.clock)), kind, a.actor.value,
                       None, a.note, None, a.eventId);
    ConsistentIsReadable(ActedHistory(h, a, kind));
  }

  /** An action is refused for what it asks, never for what was recorded. */
  lemma ActedKeeps(h: History, a: Action)
    requires Consistent(h) && Admissible(h, Act(a))
    ensures Acted(h, a) != Err(InvalidRecord)
    ensures Acted(h, a).Ok? ==> Consistent(Acted(h, a).value) && h.events <= Acted(h, a).value.events
                                && |Acted(h, a).value.events| == |h.events| + 1
  {
    ConsistentIsReadable(h);
    if a.actor.Some? && AdminActor(a.actor.value) && h.issue.version < MAX_VERSION
       && (a.recurrence.Some? ==> a.recurrence.value != Some(h.issue.id)) && ActionKind(h.issue.status, a).Ok? {
      ActedHistoryKeeps(h, a);
    }
  }

  lemma CancelKeeps(h: History, c: Cancellation)
    requires Consistent(h) && Admissible(h, CancelOrRestore(c))
    ensures Consistent(Cancel(h, c).0) && h.events <= Cancel(h, c).0.events
    ensures Cancel(h, c).1 != Err(InvalidRecord)
  {
    ConsistentIsReadable(h);
    assert EventSound(h, |h.events| - 1);
    if Cancel(h, c).0 != h {
      var next := CancelledRecord(h.issue, c, Later(h, c.clock));
      ExtendedConsistent(h, next, c.kind, c.actor.value, None, Some(c.reason), Some(RequestOf(c)), c.eventId);
    } else if c.actor.Some? && AdminActor(c.actor.value) && c.expectedVersion < h.issue.version {
      VersionsAreExact(h, c.expectedVersion + 1);
      if 1 <= c.expectedVersion + 1 {
        assert EventSound(h, c.expectedVersion);
      }
    }
  }

  lemma CorrectedKeeps(h: History, c: Correction)
    requires Consistent(h) && Admissible(h, Correct(c))
    ensures Corrected(h, c) != Err(InvalidRecord)
    ensures Corrected(h, c).Ok? ==> Consistent(Corrected(h, c).value) && h.events <= Corrected(h, c).value.events
  {
    ConsistentIsReadable(h);
    assert EventSound(h, |h.events| - 1);
    if Corrected(h, c).Ok? {
      ExtendedConsistent(h, CorrectedRecord(h.issue, c, Later(h, c.clock)), Updated, c.actor, Some(c.revisionId),
                         Some(c.note), None, c.eventId);
    }
  }

  lemma StepKeeps(h: History, step: Step)
    requires Consistent(h) && Admissible(h, step)
    ensures Consistent(Apply(h, step)) && h.events <= Apply(h, step).events
    ensures Apply(h, step).issue.id == h.issue.id
  {
    match step
    case Act(a) => ActedKeeps(h, a);
    case CancelOrRestore(c) => CancelKeeps(h, c);
    case Correct(c) => CorrectedKeeps(h, c);
  }

  function Run(h: History, steps: seq<Step>): History
    decreases |steps|
  {
    if steps == [] then h else Run(Apply(h, steps[0]), steps[1..])
  }

  predicate AllAdmissible(h: History, steps: seq<Step>)
    decreases |steps|
  {
    steps == [] || (Admissible(h, steps[0]) && AllAdmissible(Apply(h, steps[0]), steps[1..]))
  }

  /** Over any run the history stays consistent and readable, and no event is ever
      changed or lost. */
  lemma {:induction false} RunKeeps(h: History, steps: seq<Step>)
    requires Consistent(h) && AllAdmissible(h, steps)
    ensures var after := Run(h, steps);
            && Consistent(after) && Readable(after) && GuestReadable(after)
            && h.events <= after.events && after.issue.id == h.issue.id
    decreases |steps|
  {
    if steps == [] {
      ConsistentIsReadable(h);
    } else {
      StepKeeps(h, steps[0]);
      RunKeeps(Apply(h, steps[0]), steps[1..]);
    }
  }

  /** A history that begins with a report keeps rising times over any run exactly
      when the report came without a repair. */
  lemma RunTimes(r: Report, steps: seq<Step>)
    requires ReportAdmissible(r) && AllAdmissible(Born(r), steps)
    ensures TimesStrictlyRise(Run(Born(r), steps)) <==> r.repair.None?
  {
    BornConsistent(r);
    RunKeeps(Born(r), steps);
    var after := Run(Born(r), steps);
    TimesRiseIff(after);
    if r.repair.None? && 2 <= |after.events| {
      assert EventSound(after, 1);
      NoLateRepair(Born(r), steps);
    }
  }

  predicate RepairAtBirth(h: History) {
    2 <= |h.events| && h.events[1].kind == RepairReported
  }

  lemma {:induction false} NoLateRepair(h: History, steps: seq<Step>)
    requires Consistent(h) && AllAdmissible(h, steps)
    ensures RepairAtBirth(Run(h, steps)) <==> RepairAtBirth(h)
    decreases |steps|
  {
    if steps != [] {
      StepKeeps(h, steps[0]);
      NoLateRepair(Apply(h, steps[0]), steps[1..]);
      assert h.events <= Apply(h, steps[0]).events;
    }
  }

  // ---------------------------------------------------------------- a request takes effect once

  /** A successful cancellation or restoration, first or repeated, answers with the
      event of its version, which is its own. */
  lemma SuccessIsOwnEvent(h: History, c: Cancellation)
    requires Consistent(h) && Admissible(h, CancelOrRestore(c)) && Cancel(h, c).1.Ok?
    ensures var after := Cancel(h, c).0;
            && 0 <= c.expectedVersion < |after.events|
            && c.actor.Some? && c.actor.value.userId.Some?
            && after.events[c.expectedVersion].request == Some(RequestOf(c))
            && Cancel(h, c).1.value == ReceiptOf(h.issue.id, after.events[c.expectedVersion])
    ensures Extends(h, c) ==> |Cancel(h, c).0.events| == |h.events| + 1 && |h.events| == c.expectedVersion
    ensures !Extends(h, c) ==> Cancel(h, c).0 == h && c.expectedVersion < |h.events|
  {
    if c.expectedVersion < h.issue.version {
      VersionsAreExact(h, c.expectedVersion + 1);
    }
  }

  /** The request finds the version it expects, and so extends the history. */
  predicate Extends(h: History, c: Cancellation) {
    c.expectedVersion == h.issue.version
  }
}
