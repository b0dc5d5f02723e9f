/** The issues of a submission when its answers are corrected, by the guest or by
    an administrator. */
module CorrectionIssues {
  import opened Wrappers
  import opened IssueHistory
  import Contents = IssueContents

  datatype Value = Normal | Abnormal

  datatype Answer = Answer(value: Value, description: Option<string>, isUrgent: bool, repairReported: bool,
                           repairNote: Option<string>)

  type Answers = map<string, Answer>

  /** The issues a submission reported, by the item they came from. */
  type Issues = map<string, History>

  datatype DrawnIds = DrawnIds(issueId: string, eventId: string, repairEventId: string)

  /** The notes that tell of an answer corrected to abnormal, to normal, or taken back. */
  datatype Notes = Notes(abnormal: string, normal: string, removed: string)

  /** What every item of one correction shares. `labels` are the items of the
      checklist; a repair may only be reported where `repairAllowed`. */
  datatype Context = Context(
    byGuest: bool, submissionId: string, revisionId: string, propertyId: string, actor: Actor, notes: Notes,
    labels: map<string, string>, repairAllowed: bool, correctedAt: int)

  function Lookup<T>(m: map<string, T>, key: string): Option<T> {
    if key in m then Some(m[key]) else None
  }

  predicate SameAnswer(previous: Option<Answer>, current: Option<Answer>) {
    if previous.None? || current.None? then previous == current
    else
      && previous.value.value == current.value.value && previous.value.description == current.value.description
      && previous.value.isUrgent == current.value.isUrgent
      && previous.value.repairReported == current.value.repairReported
      && previous.value.repairNote == current.value.repairNote
  }

  predicate IsAbnormal(answer: Option<Answer>) {
    answer.Some? && answer.value.value == Abnormal
  }

  function NoteOn(answer: Option<Answer>, notes: Notes): string {
    if answer.None? then notes.removed else if answer.value.value == Abnormal then notes.abnormal else notes.normal
  }

  function CorrectionOf(answer: Option<Answer>, ctx: Context, ids: DrawnIds): Correction {
    Correction(ctx.byGuest, IsAbnormal(answer), if answer.Some? then answer.value.description else None,
               answer.Some? && answer.value.isUrgent, ctx.revisionId, ctx.actor, NoteOn(answer, ctx.notes), ids.eventId,
               ctx.correctedAt)
  }

  function ReportOf(item: string, answer: Answer, ctx: Context, ids: DrawnIds): Report
    requires item in ctx.labels
  {
    Report(ids.issueId, ctx.propertyId, ctx.labels[item], answer.description, answer.isUrgent,
           Some(Origin(ctx.submissionId, item, ctx.revisionId)), ctx.actor, ctx.correctedAt,
           if answer.repairReported then Some(answer.repairNote) else None, ids.eventId, ids.repairEventId)
  }

  /** What a correction makes of the issue of one item. */
  function ItemOutcome(issue: Option<History>, previous: Option<Answer>, current: Option<Answer>, item: string,
                       ctx: Context, ids: DrawnIds): Result<Option<History>, IssueError> {
    if SameAnswer(previous, current) then Ok(issue)
    else if ctx.byGuest && item !in ctx.labels then Err(InvalidRecord)
    else if issue.None? then
      if IsAbnormal(previous) then Err(InvalidRecord)
      else if !IsAbnormal(current) then Ok(None)
      else if item !in ctx.labels || (current.value.repairReported && !ctx.repairAllowed) then Err(InvalidRecord)
      else Ok(Some(Born(ReportOf(item, current.value, ctx, ids))))
    else if item !in ctx.labels then Err(InvalidRecord)
    else
      match Corrected(issue.value, CorrectionOf(current, ctx, ids))
      case Ok(next) => Ok(Some(next))
      case Err(error) => Err(error)
  }

  function Outcome(issues: Issues, previous: Answers, current: Answers, item: string, ctx: Context,
                   ids: string -> DrawnIds): Result<Option<History>, IssueError> {
    ItemOutcome(Lookup(issues, item), Lookup(previous, item), Lookup(current, item), item, ctx, ids(item))
  }

  function ChangedItems(previous: Answers, current: Answers): set<string> {
    set item | item in previous.Keys + current.Keys && !SameAnswer(Lookup(previous, item), Lookup(current, item))
  }

  /** Gives every changed item its outcome, or stops at one that is refused. */
  method CorrectItems(issues: Issues, changed: set<string>, outcome: string -> Result<Option<History>, IssueError>)
    returns (r: Result<Issues, IssueError>)
    requires forall item :: item in issues && outcome(item).Ok? ==> outcome(item).value.Some?
    ensures r.Ok? <==> forall item :: item in changed ==> outcome(item).Ok?
    ensures r.Err? ==> exists item :: item in changed && outcome(item) == Err(r.error)
    ensures r.Ok? ==> forall item {:trigger Lookup(r.value, item)} ::
                        Lookup(r.value, item) == if item in changed then outcome(item).value else Lookup(issues, item)
  {
    var next := issues;
    var left := changed;
    while left != {}
      invariant left <= changed
      invariant forall item :: item in changed - left ==> outcome(item).Ok?
      invariant forall item {:trigger Lookup(next, item)} ::
                  Lookup(next, item) == if item in changed - left then outcome(item).value else Lookup(issues, item)
      decreases |left|
    {
      var item :| item in left;
      if outcome(item).Err? {
        return Err(outcome(item).error);
      }
      ghost var was := next;
      assert Lookup(was, item) == Lookup(issues, item);
      if outcome(item).value.Some? {
        next := next[item := outcome(item).value.value];
      }
      assert forall other :: other != item ==> Lookup(next, other) == Lookup(was, other);
      left := left - {item};
    }
    return Ok(next);
  }

  /** Items whose answers are the same keep their issue, changed ones get theirs
      extended or reported; if one item is refused, all of them stay. */
  method RecordCorrection(issues: Issues, previous: Answers, current: Answers, ctx: Context, ids: string -> DrawnIds)
    returns (r: Result<Issues, IssueError>)
    ensures r.Ok? <==> forall item {:trigger Outcome(issues, previous, current, item, ctx, ids)} ::
                         item in previous.Keys + current.Keys ==> Outcome(issues, previous, current, item, ctx, ids).Ok?
    ensures r.Err? ==> exists item {:trigger Outcome(issues, previous, current, item, ctx, ids)} ::
                         && item in previous.Keys + current.Keys
                         && Outcome(issues, previous, current, item, ctx, ids) == Err(r.error)
    ensures r.Ok? ==> forall item {:trigger Lookup(r.value, item)} ::
                        Lookup(r.value, item)
                        == if item in previous.Keys + current.Keys
                           then Outcome(issues, previous, current, item, ctx, ids).value else Lookup(issues, item)
  {
    r := CorrectItems(issues, ChangedItems(previous, current),
                      item => Outcome(issues, previous, current, item, ctx, ids));
    forall item | item in previous.Keys + current.Keys && item !in ChangedItems(previous, current)
      ensures Outcome(issues, previous, current, item, ctx, ids) == Ok(Lookup(issues, item))
    {
    }
  }

  // ---------------------------------------------------------------- what a correction keeps

  predicate AllConsistent(issues: Issues) {
    forall item :: item in issues ==> Consistent(issues[item])
  }

  /** Every abnormal answer has its issue. */
  predicate Covered(issues: Issues, answers: Answers) {
    forall item :: item in answers && answers[item].value == Abnormal ==> item in issues
  }

  predicate AnswerFits(answer: Answer) {
    && (answer.description.Some? ==> |answer.description.value| <= MAX_NOTE)
    && (answer.repairNote.Some? ==> |answer.repairNote.value| <= MAX_NOTE)
  }

  predicate ContextFits(ctx: Context) {
    && ActorValid(ctx.actor) && |ctx.notes.abnormal| <= MAX_NOTE && |ctx.notes.normal| <= MAX_NOTE
    && |ctx.notes.removed| <= MAX_NOTE
  }

  lemma OutcomeKeeps(issues: Issues, previous: Answers, current: Answers, item: string, ctx: Context,
                     ids: string -> DrawnIds)
    requires AllConsistent(issues) && ContextFits(ctx)
    requires forall i :: i in current ==> AnswerFits(current[i])
    requires Outcome(issues, previous, current, item, ctx, ids).Ok?
    ensures var next := Outcome(issues, previous, current, item, ctx, ids).value;
            && (next.Some? ==> Consistent(next.value))
            && (item in issues ==> next.Some? && issues[item].events <= next.value.events)
            && (item in current && current[item].value == Abnormal && Covered(issues, previous) ==> next.Some?)
  {
    if !SameAnswer(Lookup(previous, item), Lookup(current, item)) {
      if item in issues {
        CorrectedKeeps(issues[item], CorrectionOf(Lookup(current, item), ctx, ids(item)));
      } else if IsAbnormal(Lookup(current, item)) {
        BornConsistent(ReportOf(item, current[item], ctx, ids(item)));
      }
    }
  }

  /** A correction that is accepted keeps every history, loses no event, and leaves
      an issue behind every abnormal answer. */
  lemma CorrectionKeeps(issues: Issues, previous: Answers, current: Answers, ctx: Context, ids: string -> DrawnIds,
                        after: Issues)
    requires AllConsistent(issues) && Covered(issues, previous) && ContextFits(ctx)
    requires forall i :: i in current ==> AnswerFits(current[i])
    requires forall item {:trigger Outcome(issues, previous, current, item, ctx, ids)} ::
               item in previous.Keys + current.Keys ==> Outcome(issues, previous, current, item, ctx, ids).Ok?
    requires forall item {:trigger Lookup(after, item)} ::
               Lookup(after, item)
               == if item in previous.Keys + current.Keys
                  then Outcome(issues, previous, current, item, ctx, ids).value else Lookup(issues, item)
    ensures AllConsistent(after) && Covered(after, current)
    ensures forall item :: item in issues ==> item in after && issues[item].events <= after[item].events
  {
    forall item
      ensures item in after ==> Consistent(after[item])
      ensures item in current && current[item].value == Abnormal ==> item in after
      ensures item in issues ==> item in after && issues[item].events <= after[item].events
    {
      assert Lookup(after, item).Some? <==> item in after;
      if item in previous.Keys + current.Keys {
        OutcomeKeeps(issues, previous, current, item, ctx, ids);
      }
    }
  }

  /** With every abnormal answer covered, a correction is refused only for an item
      that is not on the checklist, a repair that may not be reported, or a
      history that has no version left. */
  lemma RefusedOnlyFor(issues: Issues, previous: Answers, current: Answers, item: string, ctx: Context,
                       ids: string -> DrawnIds)
    requires AllConsistent(issues) && Covered(issues, previous) && item in ctx.labels
    ensures Outcome(issues, previous, current, item, ctx, ids).Err? <==>
              && !SameAnswer(Lookup(previous, item), Lookup(current, item))
              && (if item in issues then issues[item].issue.version >= MAX_VERSION
                  else IsAbnormal(Lookup(current, item)) && current[item].repairReported && !ctx.repairAllowed)
  {
    if item in issues {
      ConsistentIsReadable(issues[item]);
    }
  }

  /** The correction of one item reaches its issue, or reports a new one, in the item's own
      words; an item whose answer is the same leaves its issue alone. */
  lemma OutcomeMeans(issues: Issues, previous: Answers, current: Answers, item: string, ctx: Context,
                     ids: string -> DrawnIds)
    requires AllConsistent(issues) && Outcome(issues, previous, current, item, ctx, ids).Ok?
    ensures var next := Outcome(issues, previous, current, item, ctx, ids).value;
            if SameAnswer(Lookup(previous, item), Lookup(current, item)) then next == Lookup(issues, item)
            else if item in issues then
              && next.Some? && Contents.SameProcessing(issues[item].issue, next.value.issue)
              && Contents.Records(issues[item], next.value, Updated, ctx.actor,
                                  Some(if item !in current then ctx.notes.removed
                                       else if current[item].value == Abnormal then ctx.notes.abnormal
                                       else ctx.notes.normal),
                                  ids(item).eventId, ctx.correctedAt)
              && next.value.events[|issues[item].events|].sourceRevision == Some(ctx.revisionId)
              && (if item in current && current[item].value == Abnormal then
                    && next.value.issue.description == current[item].description
                    && (ctx.byGuest ==> next.value.issue.isUrgent == current[item].isUrgent)
                    && (!ctx.byGuest ==> next.value.issue.isUrgent == issues[item].issue.isUrgent)
                  else
                    && next.value.issue.description == issues[item].issue.description
                    && next.value.issue.isUrgent == issues[item].issue.isUrgent)
            else if item in current && current[item].value == Abnormal then
              && next.Some? && item in ctx.labels
              && Contents.Describes(next.value.issue, Report(
                   ids(item).issueId, ctx.propertyId, ctx.labels[item], current[item].description,
                   current[item].isUrgent, Some(Origin(ctx.submissionId, item, ctx.revisionId)), ctx.actor,
                   ctx.correctedAt, None, ids(item).eventId, ids(item).repairEventId))
              && |next.value.events| == (if current[item].repairReported then 2 else 1)
              && next.value.events[0].kind == Reported && next.value.events[0].note == current[item].description
              && next.value.events[0].actor == ctx.actor
              && (current[item].repairReported ==>
                    && next.value.events[1].kind == RepairReported
                    && next.value.events[1].note == current[item].repairNote)
            else next.None?
  {
    if !SameAnswer(Lookup(previous, item), Lookup(current, item)) {
      if item in issues {
        Contents.CorrectionMeans(issues[item], CorrectionOf(Lookup(current, item), ctx, ids(item)));
      } else if IsAbnormal(Lookup(current, item)) {
        Contents.ReportMeans(ReportOf(item, current[item], ctx, ids(item)));
      }
    }
  }

  /** A changed item that is not on the checklist, or whose abnormal answer never got its
      issue, is refused. */
  lemma UnknownItemIsRefused(issues: Issues, previous: Answers, current: Answers, item: string, ctx: Context,
                             ids: string -> DrawnIds)
    requires !SameAnswer(Lookup(previous, item), Lookup(current, item))
    requires || (item !in ctx.labels && (ctx.byGuest || item in issues || IsAbnormal(Lookup(current, item))))
             || (item !in issues && item in previous && previous[item].value == Abnormal)
    ensures Outcome(issues, previous, current, item, ctx, ids) == Err(InvalidRecord)
  {
  }

  /** Two answers are the same for an issue exactly when all of it is. */
  lemma SameAnswerMeans(previous: Option<Answer>, current: Option<Answer>)
    ensures SameAnswer(previous, current) <==> previous == current
  {
  }
}
