/** What a correction or a change of status leaves of a submitted checklist: which answers,
    which revision and which answer to the caller. */
module SubmissionContents {
  import opened Wrappers
  import opened SubmissionHistory
  import opened SubmissionRequests

  /** The place of an item on the checklist, behind all places if it is not on it. */
  lemma {:induction false} RankMeans(order: seq<string>, id: string)
    ensures var place := Rank(order, id);
            && place <= |order| && (place < |order| ==> order[place] == id)
            && forall k :: 0 <= k < place ==> order[k] != id
  {
    if order != [] && order[0] != id {
      RankMeans(order[1..], id);
      forall k | 0 <= k < Rank(order, id) ensures order[k] != id {
        assert k > 0 ==> order[k] == order[1..][k - 1];
      }
    }
  }

  // ---------------------------------------------------------------- what was asked for

  /** These are the answers that were asked for, in the order of the checklist. */
  predicate AsAsked(items: seq<Answer>, asked: seq<Answer>, order: seq<string>) {
    multiset(items) == multiset(asked) && RanksRise(items, order)
  }

  predicate DistinctItems(items: seq<Answer>) {
    forall i, j :: 0 <= i < j < |items| ==> items[i].itemId != items[j].itemId
  }

  predicate StaysAbnormal(answer: Answer, before: seq<Answer>) {
    answer.value == Abnormal && exists b :: b in before && b.itemId == answer.itemId && b.value == Abnormal
  }

  /** The answer is the one asked for; on a maintenance checklist the repair of an item that
      stays abnormal is the one reported before. */
  predicate KeepsRepair(answer: Answer, asked: Answer, before: seq<Answer>, maintenance: bool) {
    && answer.itemId == asked.itemId && answer.value == asked.value && answer.description == asked.description
    && answer.isUrgent == asked.isUrgent
    && (if maintenance && StaysAbnormal(asked, before) then
          forall b :: b in before && b.itemId == asked.itemId ==>
            answer.repairReported == b.repairReported && answer.repairNote == b.repairNote
        else answer.repairReported == asked.repairReported && answer.repairNote == asked.repairNote)
  }

  ghost predicate AsAskedKeepingRepairs(items: seq<Answer>, asked: seq<Answer>, before: seq<Answer>,
                                        maintenance: bool, order: seq<string>) {
    exists sorted :: && AsAsked(sorted, asked, order) && |items| == |sorted|
                     && forall i :: 0 <= i < |items| ==> KeepsRepair(items[i], sorted[i], before, maintenance)
  }

  lemma {:induction false} FindAnswerMeans(items: seq<Answer>, id: string)
    requires DistinctItems(items)
    ensures forall b :: b in items && b.itemId == id ==> FindAnswer(items, id) == Some(b)
    ensures FindAnswer(items, id).Some? ==>
              FindAnswer(items, id).value in items && FindAnswer(items, id).value.itemId == id
  {
    if items != [] {
      assert items == items[..|items| - 1] + [items[|items| - 1]];
      FindAnswerMeans(items[..|items| - 1], id);
    }
  }

  lemma RepairsAreKept(asked: Answers, previous: Answers, maintenance: bool, i: nat)
    requires DistinctItems(previous.items) && i < |asked.items|
    ensures |PreserveRepairs(asked, previous, maintenance).items| == |asked.items|
    ensures KeepsRepair(PreserveRepairs(asked, previous, maintenance).items[i], asked.items[i], previous.items,
                        maintenance)
  {
    FindAnswerMeans(previous.items, asked.items[i].itemId);
  }

  lemma AnswersForAdmin(asked: Answers, row: Row)
    requires DistinctItems(row.answers.items)
    ensures var answers := PreserveRepairs(Canonical(asked, row.order), row.answers, row.maintenance);
            && AsAskedKeepingRepairs(answers.items, asked.items, row.answers.items, row.maintenance, row.order)
            && answers.generalNote == asked.generalNote
  {
    var sorted := Canonical(asked, row.order);
    var answers := PreserveRepairs(sorted, row.answers, row.maintenance);
    SortAnswersSorts(asked.items, row.order);
    forall i | 0 <= i < |sorted.items|
      ensures |answers.items| == |sorted.items|
      ensures KeepsRepair(answers.items[i], sorted.items[i], row.answers.items, row.maintenance)
    {
      RepairsAreKept(sorted, row.answers, row.maintenance, i);
    }
    assert AsAsked(sorted.items, asked.items, row.order);
  }

  // ---------------------------------------------------------------- one more revision

  /** One revision is added, which holds what the row now says; nothing else changes. */
  predicate Adds(h: History, next: History, kind: Kind, source: ActorSource, actorId: Option<string>, byAdmin: bool,
                 clock: int)
  {
    && |next.revisions| == |h.revisions| + 1 && h.revisions <= next.revisions
    && next.row.order == h.row.order && next.row.maintenance == h.row.maintenance
    && next.row.revision == h.row.revision + 1
    && h.row.updatedAt < next.row.updatedAt && clock <= next.row.updatedAt
    && (next.row.updatedAt == clock || next.row.updatedAt == h.row.updatedAt + 1)
    && (var r := next.revisions[|h.revisions|];
        && r.kind == kind && r.source == source && r.actorId == actorId && r.byAdmin == byAdmin
        && r.version == next.row.revision && r.status == next.row.status && r.createdAt == next.row.updatedAt
        && r.snapshot.answers == next.row.answers && r.snapshot.status == next.row.status
        && r.snapshot.cancelledAt == next.row.cancelledAt && r.snapshot.revision == next.row.revision
        && r.snapshot.updatedAt == next.row.updatedAt)
  }

  predicate Reports(receipt: Receipt, row: Row, changed: bool) {
    && receipt.status == row.status && receipt.revision == row.revision && receipt.updatedAt == row.updatedAt
    && receipt.cancelledAt == row.cancelledAt && receipt.changed == changed
  }

  // ---------------------------------------------------------------- changes of status

  /** A cancellation needs a submitted checklist and a restoration a cancelled one, as its
      administrator saw it; it changes the status and leaves every answer as it was. */
  lemma StatusChangeMeans(h: History, call: Call)
    requires Consistent(h) && Admissible(call) && call.ChangeStatus? && h.row.revision <= call.expectedRevision
    ensures var (next, r) := Serve(h, call);
            && (r.Err? ==> next == h)
            && (r == Err(Unauthorized) <==> call.admin.None?)
            && (r == Err(InvalidTransition) <==>
                  && call.admin.Some? && call.expectedRevision == h.row.revision
                  && h.row.status == if call.kind == CancelledKind then Cancelled else Submitted)
            && (r.Err? ==> r.error in {Unauthorized, InvalidTransition, SubmissionChanged})
            && (r == Err(SubmissionChanged) ==>
                  call.expectedRevision != h.row.revision || MAX_REVISION <= h.row.revision)
            && (r.Ok? ==>
                  && call.expectedRevision == h.row.revision < MAX_REVISION && Reports(r.value, next.row, true)
                  && Adds(h, next, call.kind, AdminSession, call.admin, true, call.clock)
                  && next.row.answers == h.row.answers
                  && (call.kind == CancelledKind ==>
                        h.row.status == Submitted && next.row.status == Cancelled
                        && next.row.cancelledAt == Some(next.row.updatedAt))
                  && (call.kind == RestoredKind ==>
                        h.row.status == Cancelled && next.row.status == Submitted && next.row.cancelledAt.None?))
  {
    ConsistentIsReadable(h);
  }

  // ---------------------------------------------------------------- corrections

  /** The row already holds what is asked for. */
  predicate SaysAlready(row: Row, items: seq<Answer>, note: Option<string>) {
    AsAsked(SortAnswers(row.answers.items, row.order), items, row.order) && row.answers.generalNote == note
  }

  ghost predicate AsksForTheSame(row: Row, items: seq<Answer>, note: Option<string>) {
    && multiset(row.answers.items) == multiset(items) && row.answers.generalNote == note
    && DistinctPlaces(multiset(items), row.order)
  }

  function GuestNote(h: History, call: Call): Option<string>
    requires call.CorrectByGuest?
  {
    if call.keepNote then h.row.answers.generalNote else call.asked.generalNote
  }

  /** A guest's correction leaves exactly the answers asked for, in the order of the
      checklist, with the note kept or asked for -- in the row and in a new revision. */
  lemma GuestCorrectionMeans(h: History, call: Call)
    requires Consistent(h) && call.CorrectByGuest? && h.row.revision <= call.expectedRevision
    ensures var (next, r) := Serve(h, call);
            && (r.Err? ==> next == h)
            && (r.Ok? && r.value.changed ==>
                  && call.expectedRevision == h.row.revision < MAX_REVISION && call.issuesAccept
                  && Reports(r.value, next.row, true)
                  && Adds(h, next, CorrectedKind, PrivateLink, call.authorId, false, call.clock)
                  && next.row.status == Submitted && next.row.cancelledAt.None?
                  && AsAsked(next.row.answers.items, call.asked.items, h.row.order)
                  && next.row.answers.generalNote == GuestNote(h, call))
            && (r.Ok? && !r.value.changed ==>
                  && next == h && Reports(r.value, h.row, false)
                  && SaysAlready(h.row, call.asked.items, GuestNote(h, call)))
  {
    ConsistentIsReadable(h);
    SortAnswersSorts(call.asked.items, h.row.order);
    SortAnswersSorts(h.row.answers.items, h.row.order);
  }

  /** When a guest's correction of the current revision is refused, and why. */
  lemma GuestCorrectionAnswers(h: History, call: Call)
    requires Consistent(h) && call.CorrectByGuest? && h.row.revision <= call.expectedRevision
    ensures var (next, r) := Serve(h, call);
            var current := call.linkValid && h.row.status == Submitted
                           && call.expectedRevision == h.row.revision < MAX_REVISION;
            && (r == Err(Unauthorized) <==> !call.linkValid || h.row.status != Submitted)
            && (r.Err? ==> r.error in {Unauthorized, SubmissionChanged, IssuesRefused})
            && (r == Err(SubmissionChanged) ==> !current)
            && (r == Err(IssuesRefused) ==> current && !call.issuesAccept)
            && (current && call.issuesAccept ==> r.Ok?)
            && (current && AsksForTheSame(h.row, call.asked.items, GuestNote(h, call)) ==> r.Ok? && !r.value.changed)
  {
    ConsistentIsReadable(h);
    if && multiset(h.row.answers.items) == multiset(call.asked.items)
       && DistinctPlaces(multiset(call.asked.items), h.row.order) {
      OrderDoesNotMatter(call.asked.items, h.row.answers.items, h.row.order);
    }
  }

  /** An administrator's correction leaves the answers asked for, in the order of the
      checklist, except that maintenance answers which stay abnormal keep their repair. */
  lemma AdminCorrectionMeans(h: History, call: Call)
    requires Consistent(h) && call.CorrectByAdmin? && h.row.revision <= call.expectedRevision
    requires DistinctItems(h.row.answers.items)
    ensures var (next, r) := Serve(h, call);
            && (r.Err? ==> next == h)
            && (r.Ok? && r.value.changed ==>
                  && call.expectedRevision == h.row.revision < MAX_REVISION && call.issuesAccept
                  && Reports(r.value, next.row, true)
                  && Adds(h, next, CorrectedKind, AdminSession, call.admin, true, call.clock)
                  && next.row.status == Submitted && next.row.cancelledAt.None?
                  && AsAskedKeepingRepairs(next.row.answers.items, call.asked.items, h.row.answers.items,
                                           h.row.maintenance, h.row.order)
                  && next.row.answers.generalNote == call.asked.generalNote)
            && (r.Ok? && !r.value.changed ==>
                  && next == h && Reports(r.value, h.row, false)
                  && h.row.answers.generalNote == call.asked.generalNote
                  && AsAskedKeepingRepairs(SortAnswers(h.row.answers.items, h.row.order), call.asked.items,
                                           h.row.answers.items, h.row.maintenance, h.row.order))
  {
    ConsistentIsReadable(h);
    AnswersForAdmin(call.asked, h.row);
  }

  lemma AdminCorrectionAnswers(h: History, call: Call)
    requires Consistent(h) && call.CorrectByAdmin? && h.row.revision <= call.expectedRevision
    ensures var (next, r) := Serve(h, call);
            var current := call.admin.Some? && h.row.status == Submitted
                           && call.expectedRevision == h.row.revision < MAX_REVISION;
            && (r == Err(Unauthorized) <==> call.admin.None?)
            && (r == Err(Ineligible) <==> call.admin.Some? && h.row.status != Submitted)
            && (r.Err? ==> r.error in {Unauthorized, Ineligible, SubmissionChanged, IssuesRefused})
            && (r == Err(SubmissionChanged) ==> !current)
            && (r == Err(IssuesRefused) ==> current && !call.issuesAccept)
            && (current && call.issuesAccept ==> r.Ok?)
  {
    ConsistentIsReadable(h);
  }

  /** The revision of the row's number says what the row says. */
  predicate Agrees(row: Row, r: Revision) {
    && r.version == row.revision && r.status == row.status && r.createdAt == row.updatedAt
    && r.snapshot.status == row.status && r.snapshot.revision == row.revision
    && r.snapshot.updatedAt == row.updatedAt && r.snapshot.cancelledAt == row.cancelledAt
    && r.snapshot.answers == row.answers
  }

  /** A row that its history contradicts is not touched. */
  lemma ContradictionIsRefused(h: History, call: Call)
    requires match call
             case ChangeStatus(admin, _, _, _, _) => admin.Some?
             case CorrectByAdmin(admin, _, _, _, _, _) => admin.Some? && h.row.status == Submitted
             case CorrectByGuest(linkValid, _, _, _, _, _, _, _) => linkValid && h.row.status == Submitted
    requires || (forall r :: r in h.revisions ==> !Agrees(h.row, r))
             || (h.row.status == Submitted && h.row.cancelledAt.Some?)
             || (h.row.status == Cancelled && h.row.cancelledAt.None?)
    ensures Serve(h, call) == (h, Err(InvalidRecord))
  {
    var found := ByVersion(h, h.row.revision);
    assert found.Some? ==> found.value in h.revisions;
  }
}
