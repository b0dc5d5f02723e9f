/** Requests on issues: the administrator's service, what a repeated cancellation
    answers, and the issues that a corrected submission touches. */
module IssueRequests {
  import opened Wrappers
  import opened IssueHistory
  import Recurrence = IssueRecurrence
  import Text

  // ---------------------------------------------------------------- a request takes effect once

  predicate SameRequest(c: Cancellation, q: CancellationRequest) {
    c.actor.Some? && AdminActor(c.actor.value) && RequestOf(c) == q
  }

  /** The event of a request answers every repeat of it. */
  lemma OwnEventAnswers(h: History, q: CancellationRequest, again: Cancellation)
    requires Consistent(h) && SameRequest(again, q) && 0 <= q.expectedVersion < |h.events|
    requires h.events[q.expectedVersion].request == Some(q)
    ensures Cancel(h, again) == (h, Ok(ReceiptOf(h.issue.id, h.events[q.expectedVersion])))
  {
    ConsistentIsReadable(h);
    VersionsAreExact(h, q.expectedVersion + 1);
    assert EventSound(h, q.expectedVersion);
  }

  /** Once a cancellation or restoration succeeded, repeating it at any later moment
      changes nothing and returns the same receipt, whatever happened in between. */
  lemma RepeatReturnsSameReceipt(h: History, q: CancellationRequest, first: Cancellation, between: seq<Step>,
                                 again: Cancellation)
    requires SameRequest(first, q) && SameRequest(again, q)
    requires Consistent(h) && Admissible(h, CancelOrRestore(first)) && Cancel(h, first).1.Ok?
    requires AllAdmissible(Cancel(h, first).0, between)
    ensures var later := Run(Cancel(h, first).0, between);
            Cancel(later, again) == (later, Cancel(h, first).1)
  {
    var own := Cancel(h, first).0;
    SuccessIsOwnEvent(h, first);
    CancelKeeps(h, first);
    RunKeeps(own, between);
    var later := Run(own, between);
    assert own.events[q.expectedVersion] == later.events[q.expectedVersion];
    assert own.issue.id == h.issue.id;
    OwnEventAnswers(later, q, again);
  }

  /** How often a request extends the history in a run. */
  function Extensions(h: History, steps: seq<Step>, q: CancellationRequest): nat
    decreases |steps|
  {
    if steps == [] then 0
    else
      (if && steps[0].CancelOrRestore? && SameRequest(steps[0].cancellation, q)
          && Apply(h, steps[0]) != h then 1 else 0)
      + Extensions(Apply(h, steps[0]), steps[1..], q)
  }

  lemma {:induction false} PastVersionNeverExtends(h: History, steps: seq<Step>, q: CancellationRequest)
    requires Consistent(h) && AllAdmissible(h, steps) && q.expectedVersion < h.issue.version
    ensures Extensions(h, steps, q) == 0
    decreases |steps|
  {
    if steps != [] {
      StepKeeps(h, steps[0]);
      assert |h.events| <= |Apply(h, steps[0]).events|;
      PastVersionNeverExtends(Apply(h, steps[0]), steps[1..], q);
    }
  }

  /** However often and by whichever of its repeats it is sent, a cancellation or
      restoration adds at most one event. */
  lemma {:induction false} RequestExtendsAtMostOnce(h: History, steps: seq<Step>, q: CancellationRequest)
    requires Consistent(h) && AllAdmissible(h, steps)
    ensures Extensions(h, steps, q) <= 1
    decreases |steps|
  {
    if steps != [] {
      StepKeeps(h, steps[0]);
      var next := Apply(h, steps[0]);
      if steps[0].CancelOrRestore? && SameRequest(steps[0].cancellation, q) && next != h {
        assert next.issue.version == q.expectedVersion + 1;
        PastVersionNeverExtends(next, steps[1..], q);
      } else {
        RequestExtendsAtMostOnce(next, steps[1..], q);
      }
    }
  }

  // ---------------------------------------------------------------- the service

  function CheckedNote(value: Option<string>): Result<Option<string>, IssueError> {
    if value.None? then Ok(None)
    else if 1 <= |Text.Trim(value.value)| <= MAX_NOTE then Ok(Some(Text.Trim(value.value)))
    else Err(NoteRequired)
  }

  function CheckedReason(value: string, maximum: nat): Result<string, IssueError> {
    if 1 <= |Text.Trim(value)| <= maximum then Ok(Text.Trim(value)) else Err(ReasonRequired)
  }

  /** What the walk along links reads of an issue. */
  function NodeOf(r: Record): Recurrence.Node {
    Recurrence.Node(r.propertyId, r.reportedAt, r.cancelledAt.Some?, r.version, r.recurrenceOf)
  }

  function NodesOf(histories: map<string, History>): Recurrence.Issues {
    map id | id in histories :: NodeOf(histories[id].issue)
  }

  ghost predicate MayRepeat(histories: map<string, History>, id: string, target: string)
    requires id in histories
  {
    && Recurrence.Linkable(NodesOf(histories), id, target)
    && target in histories && Readable(histories[target])
  }

  /** The request ends as specified: with the history given, or refused. */
  predicate Leaves(specified: Result<History, IssueError>, r: Result<(), IssueError>, after: History) {
    match specified
    case Ok(next) => r.Ok? && after == next
    case Err(error) => r == Err(error)
  }

  /** A note has 1 to 2000 characters without outer space and a reason 1 to 500, and both are
      kept so. */
  lemma CheckedNoteMeans(value: string)
    ensures CheckedNote(None) == Ok(None)
    ensures CheckedNote(Some(value)) == if 1 <= |Text.Trim(value)| <= 2000 then Ok(Some(Text.Trim(value)))
                                        else Err(NoteRequired)
    ensures CheckedReason(value, 500) == if 1 <= |Text.Trim(value)| <= 500 then Ok(Text.Trim(value))
                                         else Err(ReasonRequired)
  {
  }

  class IssueTable {
    var issue: Record
    var events: seq<Event>

    function Tables(): History
      reads this
    {
      History(issue, events)
    }

    constructor (r: Report)
      ensures Tables() == Born(r)
    {
      issue, events := Born(r).issue, Born(r).events;
    }

    /** The shared body of the administrator's actions. */
    method RecordAction(a: Action) returns (r: Result<(), IssueError>)
      modifies this
      ensures match Acted(old(Tables()), a)
              case Ok(next) => r.Ok? && Tables() == next
              case Err(error) => r == Err(error) && Tables() == old(Tables())
    {
      if a.actor.None? || !AdminActor(a.actor.value) {
        return Err(Unauthenticated);
      }
      if issue.cancelledAt.Some? {
        return Err(IssueCancelled);
      }
      if issue.version != a.expectedVersion || issue.version >= MAX_VERSION {
        return Err(IssueChanged);
      }
      if !Readable(Tables()) {
        return Err(InvalidRecord);
      }
      if a.isUrgent == Some(issue.isUrgent) {
        return Err(UrgencyUnchanged);
      }
      if a.recurrence.Some? {
        if a.recurrence.value == issue.recurrenceOf {
          return Err(RecurrenceUnchanged);
        }
        if a.recurrence.value.Some? && !a.targetAccepted {
          return Err(RecurrenceRefused);
        }
      }
      var kind := Updated;
      if a.status.Some? {
        var changed := StatusEvent(issue.status, a.status.value, a.note);
        if changed.Err? {
          return Err(changed.error);
        }
        kind := changed.value;
      }
      var before, beforeEvents := issue, events;
      var now := Max(a.clock, issue.updatedAt + 1);
      issue := ActedRecord(issue, a, a.actor.value.userId, now);
      events := events + [Event(a.eventId, issue.version, kind, a.actor.value, None, a.note, Some(before.status),
                                issue.status, issue, None, now)];
      if !Readable(Tables()) {
        issue, events := before, beforeEvents;
        return Err(InvalidRecord);
      }
      return Ok(());
    }

    method AddNote(expectedVersion: int, actor: Option<Actor>, note: string, eventId: string, clock: int)
      returns (r: Result<(), IssueError>)
      modifies this
      ensures var checked := CheckedNote(Some(note));
              if checked.Err? then r == Err(NoteRequired) && Tables() == old(Tables())
              else
                match Acted(old(Tables()), Action(expectedVersion, actor, checked.value, None, None, None, false,
                                                  eventId, clock))
                case Ok(next) => r.Ok? && Tables() == next
                case Err(error) => r == Err(error) && Tables() == old(Tables())
    {
      var checked := CheckedNote(Some(note));
      if checked.Err? {
        return Err(checked.error);
      }
      r := RecordAction(Action(expectedVersion, actor, checked.value, None, None, None, false, eventId, clock));
    }

    method ChangeStatus(expectedVersion: int, actor: Option<Actor>, status: Status, note: Option<string>,
                        eventId: string, clock: int)
      returns (r: Result<(), IssueError>)
      modifies this
      ensures r.Ok? ==> && Tables().issue.status == status && old(issue).status != status
                        && (status == Resolved || old(issue).status == Resolved ==> note.Some?)
                        && (issue.resolvedAt.Some? <==> status == Resolved)
                        && |events| == |old(events)| + 1 && old(events) <= events
      ensures r.Err? ==> Tables() == old(Tables())
      ensures var checked := CheckedNote(note);
              if checked.Err? then r == Err(NoteRequired)
              else Leaves(Acted(old(Tables()), Action(expectedVersion, actor, checked.value, Some(status), None, None,
                                                      false, eventId, clock)), r, Tables())
    {
      var checked := CheckedNote(note);
      if checked.Err? {
        return Err(checked.error);
      }
      r := RecordAction(Action(expectedVersion, actor, checked.value, Some(status), None, None, false, eventId, clock));
    }

    method ChangeUrgency(expectedVersion: int, actor: Option<Actor>, isUrgent: bool, note: string, eventId: string,
                         clock: int)
      returns (r: Result<(), IssueError>)
      modifies this
      ensures r.Ok? ==> && issue.isUrgent == isUrgent != old(issue).isUrgent && issue.status == old(issue).status
                        && |events| == |old(events)| + 1 && old(events) <= events
      ensures r.Err? ==> Tables() == old(Tables())
      ensures var reason := CheckedReason(note, 500);
              if reason.Err? then r == Err(ReasonRequired)
              else Leaves(Acted(old(Tables()), Action(expectedVersion, actor, Some(reason.value), None, Some(isUrgent),
                                                      None, false, eventId, clock)), r, Tables())
    {
      var reason := CheckedReason(note, 500);
      if reason.Err? {
        return Err(reason.error);
      }
      r := RecordAction(Action(expectedVersion, actor, Some(reason.value), None, Some(isUrgent), None, false, eventId,
                               clock));
    }

    /** The target's links are walked among the issues as they are in the transaction,
        this one among them, and its own detail must be readable. */
    method ChangeRecurrence(expectedVersion: int, actor: Option<Actor>, target: Option<string>,
                            histories: map<string, History>, note: string, eventId: string, clock: int)
      returns (r: Result<(), IssueError>)
      requires issue.id in histories && histories[issue.id] == Tables()
      modifies this
      ensures r.Ok? ==> && issue.recurrenceOf == target && target != old(issue).recurrenceOf
                        && (target.Some? ==> MayRepeat(histories, old(issue).id, target.value))
                        && issue.status == old(issue).status
                        && |events| == |old(events)| + 1 && old(events) <= events
      ensures r == Err(RecurrenceRefused) ==> target.Some? && !MayRepeat(histories, old(issue).id, target.value)
      ensures r.Err? ==> Tables() == old(Tables())
      ensures var reason := CheckedReason(note, 500);
              if reason.Err? then r == Err(ReasonRequired)
              else
                Leaves(Acted(old(Tables()), Action(expectedVersion, actor, Some(reason.value), None, None, Some(target),
                                                   target.Some? && MayRepeat(histories, old(issue).id, target.value),
                                                   eventId, clock)), r, Tables())
    {
      var reason := CheckedReason(note, 500);
      if reason.Err? {
        return Err(reason.error);
      }
      var accepted := false;
      if target.Some? {
        var walk := Recurrence.AssertRecurrenceTarget(NodesOf(histories), issue.id, target.value);
        accepted := walk.Ok? && target.value in histories && Readable(histories[target.value]);
      }
      r := RecordAction(Action(expectedVersion, actor, Some(reason.value), None, None, Some(target), accepted, eventId,
                               clock));
    }

    /** Cancels or restores, or answers for an earlier request that is the same. */
    method CancelOrRestore(c: Cancellation) returns (r: Result<Receipt, IssueError>)
      modifies this
      ensures (Tables(), r) == Cancel(old(Tables()), c)
    {
      if c.actor.None? || !AdminActor(c.actor.value) {
        return Err(Unauthenticated);
      }
      if !Readable(Tables()) {
        return Err(InvalidRecord);
      }
      if issue.version != c.expectedVersion {
        if c.expectedVersion < issue.version {
          return Retried(Tables(), c);
        }
        return Err(IssueChanged);
      }
      if issue.version >= MAX_VERSION {
        return Err(IssueChanged);
      }
      if (if c.kind == Cancelled then issue.cancelledAt.Some? else issue.cancelledAt.None?) {
        return Err(InvalidCancellation);
      }
      var now := Max(c.clock, issue.updatedAt + 1);
      var status := issue.status;
      issue := CancelledRecord(issue, c, now);
      events := events + [Event(c.eventId, issue.version, c.kind, c.actor.value, None, Some(c.reason), Some(status),
                                status, issue, Some(RequestOf(c)), now)];
      return Ok(Receipt(issue.id, c.eventId, issue.version, status, now, issue.cancelledAt, issue.cancellationReason));
    }
  }
}
