/** The revisions of a submitted checklist: cancellations, restorations and
    corrections by administrators and guests, and their repeats. */
module SubmissionHistory {
  import opened Wrappers

  const MAX_REVISION := 2147483647

  datatype Status = Submitted | Cancelled

  datatype Kind = SubmittedKind | CorrectedKind | CancelledKind | RestoredKind

  datatype ActorSource = AdminSession | PrivateLink | OtherSource

  datatype Value = Normal | Abnormal

  datatype Answer = Answer(itemId: string, value: Value, description: Option<string>, isUrgent: bool,
                           repairReported: bool, repairNote: Option<string>)

  datatype Answers = Answers(items: seq<Answer>, generalNote: Option<string>)

  /** What makes two requests the same. The digest stored for a request is
      injective, so it stands for the request. */
  datatype Request =
    | StatusRequest(actorId: string, kind: Kind, expectedRevision: int, reason: string)
    | AdminCorrection(actorId: string, expectedRevision: int, items: seq<Answer>, generalNote: Option<string>,
                      reason: string)
    | GuestCorrection(expectedRevision: int, items: seq<Answer>, keepNote: bool, generalNote: Option<string>,
                      guestReason: Option<string>)

  /** A snapshot keeps the marks of the requests before it: a change of status and an
      administrator's correction copy the snapshot they start from. */
  datatype Snapshot = Snapshot(status: Status, cancelledAt: Option<int>, revision: int, updatedAt: int,
                               answers: Answers, statusMark: Option<Request>, adminMark: Option<Request>,
                               guestMark: Option<Request>)

  datatype Revision = Revision(version: int, kind: Kind, status: Status, source: ActorSource, actorId: Option<string>,
                               byAdmin: bool, snapshot: Snapshot, createdAt: int)

  datatype Row = Row(status: Status, cancelledAt: Option<int>, revision: int, answers: Answers, updatedAt: int,
                     maintenance: bool, order: seq<string>)

  datatype History = History(row: Row, revisions: seq<Revision>)

  datatype Receipt = Receipt(status: Status, revision: int, updatedAt: int, cancelledAt: Option<int>, changed: bool)

  datatype SubmissionError =
    | Unauthorized | Ineligible | InvalidRecord | SubmissionChanged | InvalidTransition | IssuesRefused

  // ---------------------------------------------------------------- answers in canonical order

  function Rank(order: seq<string>, id: string): nat {
    if order == [] || order[0] == id then 0 else 1 + Rank(order[1..], id)
  }

  function InsertAnswer(items: seq<Answer>, answer: Answer, order: seq<string>): seq<Answer> {
    if items == [] || Rank(order, items[|items| - 1].itemId) <= Rank(order, answer.itemId) then items + [answer]
    else InsertAnswer(items[..|items| - 1], answer, order) + [items[|items| - 1]]
  }

  /** The stable sort of the answers by their place on the checklist. */
  function SortAnswers(items: seq<Answer>, order: seq<string>): seq<Answer> {
    if items == [] then []
    else InsertAnswer(SortAnswers(items[..|items| - 1], order), items[|items| - 1], order)
  }

  function Canonical(answers: Answers, order: seq<string>): Answers {
    answers.(items := SortAnswers(answers.items, order))
  }

  // ---------------------------------------------------------------- reading

  predicate CurrentMatches(row: Row, r: Revision) {
    && r.version == row.revision && r.status == row.status
    && r.snapshot.status == row.status && r.snapshot.cancelledAt == row.cancelledAt
    && r.snapshot.revision == row.revision && r.snapshot.updatedAt == row.updatedAt
    && r.snapshot.answers == row.answers && r.createdAt == row.updatedAt
  }

  function ByVersion(h: History, version: int): Option<Revision> {
    if 1 <= version <= |h.revisions| && h.revisions[version - 1].version == version
    then Some(h.revisions[version - 1]) else None
  }

  predicate Readable(h: History) {
    && (h.row.status == Submitted <==> h.row.cancelledAt.None?)
    && ByVersion(h, h.row.revision).Some? && CurrentMatches(h.row, ByVersion(h, h.row.revision).value)
  }

  // ---------------------------------------------------------------- the requests

  /** One call. An administrator is absent when the session's user no longer is
      one; a guest's link may have expired; `issuesAccept` is whether the issues
      of the submission accept the corrected answers. */
  datatype Call =
    | ChangeStatus(admin: Option<string>, kind: Kind, expectedRevision: int, reason: string, clock: int)
    | CorrectByAdmin(admin: Option<string>, expectedRevision: int, asked: Answers, reason: string,
                     issuesAccept: bool, clock: int)
    | CorrectByGuest(linkValid: bool, authorId: Option<string>, expectedRevision: int, asked: Answers, keepNote: bool,
                     guestReason: Option<string>, issuesAccept: bool, clock: int)

  function RequestOf(call: Call, order: seq<string>): Request
    requires (call.ChangeStatus? || call.CorrectByAdmin?) ==> call.admin.Some?
  {
    match call
    case ChangeStatus(admin, kind, expected, reason, _) => StatusRequest(admin.value, kind, expected, reason)
    case CorrectByAdmin(admin, expected, asked, reason, _, _) =>
      AdminCorrection(admin.value, expected, SortAnswers(asked.items, order), asked.generalNote, reason)
    case CorrectByGuest(_, _, expected, asked, keepNote, reason, _, _) =>
      GuestCorrection(expected, SortAnswers(asked.items, order), keepNote, asked.generalNote, reason)
  }

  function TargetStatus(kind: Kind): Status {
    if kind == CancelledKind then Cancelled else Submitted
  }

  function StatusReceipt(r: Revision, status: Status): Receipt {
    Receipt(status, r.version, r.snapshot.updatedAt, r.snapshot.cancelledAt, true)
  }

  function CorrectionReceipt(r: Revision): Receipt {
    Receipt(Submitted, r.version, r.snapshot.updatedAt, None, true)
  }

  /** An administrator's repeat of a change of status. */
  function StatusRetried(h: History, q: Request): Result<Receipt, SubmissionError>
    requires q.StatusRequest?
  {
    var found, status := ByVersion(h, q.expectedRevision + 1), TargetStatus(q.kind);
    if || found.None? || found.value.kind != q.kind || found.value.status != status
       || found.value.source != AdminSession || found.value.actorId != Some(q.actorId)
       || found.value.snapshot.statusMark != Some(q)
    then Err(SubmissionChanged)
    else
      var r := found.value;
      if || !r.byAdmin || r.snapshot.revision != q.expectedRevision + 1 || r.snapshot.status != status
         || r.snapshot.updatedAt != r.createdAt
         || (status == Cancelled && r.snapshot.cancelledAt != Some(r.snapshot.updatedAt))
      then Err(InvalidRecord)
      else Ok(StatusReceipt(r, status))
  }

  function AdminRetried(h: History, q: Request): Result<Receipt, SubmissionError>
    requires q.AdminCorrection?
  {
    var found := ByVersion(h, q.expectedRevision + 1);
    if || found.None? || found.value.kind != CorrectedKind || found.value.status != Submitted
       || found.value.source != AdminSession || found.value.actorId != Some(q.actorId)
       || found.value.snapshot.adminMark != Some(q)
    then Err(SubmissionChanged)
    else
      var r := found.value;
      if || !r.byAdmin || r.snapshot.revision != q.expectedRevision + 1 || r.snapshot.status != Submitted
         || r.snapshot.updatedAt != r.createdAt
      then Err(InvalidRecord)
      else Ok(CorrectionReceipt(r))
  }

  function GuestRetried(h: History, q: Request): Result<Receipt, SubmissionError>
    requires q.GuestCorrection?
  {
    var found := ByVersion(h, q.expectedRevision + 1);
    if || found.None? || found.value.kind != CorrectedKind || found.value.status != Submitted
       || found.value.source != PrivateLink
    then Err(SubmissionChanged)
    else
      var r := found.value;
      var mark := r.snapshot.guestMark;
      if mark.None? || !mark.value.GuestCorrection? || mark.value.expectedRevision != q.expectedRevision
      then Err(InvalidRecord)
      else if mark != Some(q) then Err(SubmissionChanged)
      else if || r.snapshot.revision != q.expectedRevision + 1 || r.snapshot.status != Submitted
              || r.snapshot.updatedAt != r.createdAt
      then Err(InvalidRecord)
      else Ok(CorrectionReceipt(r))
  }

  function Later(h: History, clock: int): int {
    Max(clock, h.row.updatedAt + 1)
  }

  function Appended(h: History, kind: Kind, source: ActorSource, actorId: Option<string>, byAdmin: bool,
                    snapshot: Snapshot): History {
    History(h.row.(status := snapshot.status, cancelledAt := snapshot.cancelledAt, revision := snapshot.revision,
                   answers := snapshot.answers, updatedAt := snapshot.updatedAt),
            h.revisions + [Revision(snapshot.revision, kind, snapshot.status, source, actorId, byAdmin, snapshot,
                                    snapshot.updatedAt)])
  }

  /** The current evidence under a new status. */
  function StatusChanged(h: History, q: Request, now: int): History
    requires q.StatusRequest? && ByVersion(h, h.row.revision).Some?
  {
    var status := TargetStatus(q.kind);
    Appended(h, q.kind, AdminSession, Some(q.actorId), true,
             ByVersion(h, h.row.revision).value.snapshot.(
               status := status, cancelledAt := if status == Cancelled then Some(now) else None,
               revision := h.row.revision + 1, updatedAt := now, statusMark := Some(q)))
  }

  /** Between maintenance answers that stay abnormal, repair information is kept. */
  function FindAnswer(items: seq<Answer>, id: string): Option<Answer> {
    if items == [] then None
    else if items[|items| - 1].itemId == id then Some(items[|items| - 1]) else FindAnswer(items[..|items| - 1], id)
  }

  function PreserveRepairs(asked: Answers, previous: Answers, maintenance: bool): Answers {
    if !maintenance then asked
    else
      asked.(items := seq(|asked.items|, i requires 0 <= i < |asked.items| =>
        var before := FindAnswer(previous.items, asked.items[i].itemId);
        if asked.items[i].value == Abnormal && before.Some? && before.value.value == Abnormal
        then asked.items[i].(repairReported := before.value.repairReported, repairNote := before.value.repairNote)
        else asked.items[i]))
  }

  function Unchanged(h: History): Receipt {
    Receipt(Submitted, h.row.revision, h.row.updatedAt, None, false)
  }

  /** Every call, with the history it leaves and its answer. */
  function Serve(h: History, call: Call): (History, Result<Receipt, SubmissionError>) {
    match call
    case ChangeStatus(admin, kind, expected, reason, clock) =>
      if admin.None? then (h, Err(Unauthorized))
      else if !Readable(h) then (h, Err(InvalidRecord))
      else
        var q := RequestOf(call, h.row.order);
        if expected < h.row.revision then (h, StatusRetried(h, q))
        else if expected != h.row.revision then (h, Err(SubmissionChanged))
        else if h.row.status == TargetStatus(kind) then (h, Err(InvalidTransition))
        else if h.row.revision >= MAX_REVISION then (h, Err(SubmissionChanged))
        else
          var next := StatusChanged(h, q, Later(h, clock));
          (next, Ok(StatusReceipt(next.revisions[|h.revisions|], TargetStatus(kind))))
    case CorrectByAdmin(admin, expected, asked, reason, issuesAccept, clock) =>
      if admin.None? then (h, Err(Unauthorized))
      else if h.row.status != Submitted then (h, Err(Ineligible))
      else if !Readable(h) then (h, Err(InvalidRecord))
      else
        var q := RequestOf(call, h.row.order);
        if expected < h.row.revision then (h, AdminRetried(h, q))
        else if expected != h.row.revision || h.row.revision >= MAX_REVISION then (h, Err(SubmissionChanged))
        else
          var answers := PreserveRepairs(Canonical(asked, h.row.order), h.row.answers, h.row.maintenance);
          if answers == Canonical(h.row.answers, h.row.order) then (h, Ok(Unchanged(h)))
          else if !issuesAccept then (h, Err(IssuesRefused))
          else
            var now := Later(h, clock);
            var next := Appended(h, CorrectedKind, AdminSession, admin, true,
                                 ByVersion(h, h.row.revision).value.snapshot.(
                                   revision := h.row.revision + 1, updatedAt := now, answers := answers,
                                   adminMark := Some(q)));
            (next, Ok(CorrectionReceipt(next.revisions[|h.revisions|])))
    case CorrectByGuest(linkValid, authorId, expected, asked, keepNote, reason, issuesAccept, clock) =>
      if !linkValid || h.row.status != Submitted then (h, Err(Unauthorized))
      else if !Readable(h) then (h, Err(InvalidRecord))
      else
        var q := RequestOf(call, h.row.order);
        if expected < h.row.revision then (h, GuestRetried(h, q))
        else if expected != h.row.revision || h.row.revision >= MAX_REVISION then (h, Err(SubmissionChanged))
        else
          var requested := Canonical(asked, h.row.order);
          var answers := if keepNote then requested.(generalNote := h.row.answers.generalNote) else requested;
          if answers == Canonical(h.row.answers, h.row.order) then (h, Ok(Unchanged(h)))
          else if !issuesAccept then (h, Err(IssuesRefused))
          else
            var now := Later(h, clock);
            var next := Appended(h, CorrectedKind, PrivateLink, authorId, false,
                                 Snapshot(Submitted, None, h.row.revision + 1, now, answers, None, None, Some(q)));
            (next, Ok(CorrectionReceipt(next.revisions[|h.revisions|])))
  }

  // ---------------------------------------------------------------- what every call keeps

  /** A mark tells of an earlier request, except on the revision of that request. */
  predicate StatusMarkSound(r: Revision, q: Request) {
    && q.StatusRequest? && (q.kind == CancelledKind || q.kind == RestoredKind) && q.expectedRevision < r.version
    && (q.expectedRevision == r.version - 1 ==>
          && r.kind == q.kind && r.status == TargetStatus(q.kind) && r.source == AdminSession
          && r.actorId == Some(q.actorId) && r.byAdmin
          && (r.status == Cancelled ==> r.snapshot.cancelledAt == Some(r.snapshot.updatedAt)))
  }

  predicate AdminMarkSound(r: Revision, q: Request) {
    && q.AdminCorrection? && q.expectedRevision < r.version
    && (q.expectedRevision == r.version - 1 ==>
          r.kind == CorrectedKind && r.status == Submitted && r.source == AdminSession
          && r.actorId == Some(q.actorId) && r.byAdmin)
  }

  predicate GuestMarkSound(r: Revision, q: Request) {
    && q.GuestCorrection? && q.expectedRevision < r.version
    && (q.expectedRevision == r.version - 1 ==>
          r.kind == CorrectedKind && r.status == Submitted && r.source == PrivateLink)
  }

  predicate MarksSound(r: Revision) {
    && (r.snapshot.statusMark.Some? ==> StatusMarkSound(r, r.snapshot.statusMark.value))
    && (r.snapshot.adminMark.Some? ==> AdminMarkSound(r, r.snapshot.adminMark.value))
    && (r.snapshot.guestMark.Some? ==> GuestMarkSound(r, r.snapshot.guestMark.value))
    && (r.kind == CorrectedKind && r.source == PrivateLink ==>
          r.snapshot.guestMark.Some? && r.snapshot.guestMark.value.expectedRevision == r.version - 1)
  }

  /** Status follows from the kind of the revision and the status before. */
  predicate Continues(before: Revision, r: Revision) {
    && before.createdAt < r.createdAt
    && match r.kind
       case SubmittedKind => false
       case CorrectedKind => before.status == Submitted == r.status
       case CancelledKind => before.status == Submitted && r.status == Cancelled
       case RestoredKind => before.status == Cancelled && r.status == Submitted
  }

  predicate RevisionSound(h: History, k: nat)
    requires k < |h.revisions|
  {
    var r := h.revisions[k];
    && r.version == k + 1 == r.snapshot.revision && r.snapshot.status == r.status && r.createdAt == r.snapshot.updatedAt
    && (r.status == Submitted <==> r.snapshot.cancelledAt.None?)
    && MarksSound(r)
    && (if k == 0 then r.kind == SubmittedKind && r.status == Submitted else Continues(h.revisions[k - 1], r))
  }

  predicate Consistent(h: History) {
    && |h.revisions| >= 1 && h.row.revision == |h.revisions|
    && CurrentMatches(h.row, h.revisions[|h.revisions| - 1])
    && forall k {:trigger RevisionSound(h, k)} :: 0 <= k < |h.revisions| ==> RevisionSound(h, k)
  }

  lemma ConsistentIsReadable(h: History)
    requires Consistent(h)
    ensures Readable(h)
    ensures forall v :: ByVersion(h, v) == if 1 <= v <= h.row.revision then Some(h.revisions[v - 1]) else None
  {
    assert RevisionSound(h, |h.revisions| - 1);
    forall v | 1 <= v <= |h.revisions| ensures ByVersion(h, v) == Some(h.revisions[v - 1]) {
      assert RevisionSound(h, v - 1);
    }
  }

  lemma AppendedConsistent(h: History, kind: Kind, source: ActorSource, actorId: Option<string>, byAdmin: bool,
                           snapshot: Snapshot)
    requires Consistent(h) && snapshot.revision == h.row.revision + 1 && h.row.updatedAt < snapshot.updatedAt
    requires snapshot.status == Submitted <==> snapshot.cancelledAt.None?
    requires var r := Appended(h, kind, source, actorId, byAdmin, snapshot).revisions[|h.revisions|];
             MarksSound(r) && Continues(h.revisions[|h.revisions| - 1], r)
    ensures var next := Appended(h, kind, source, actorId, byAdmin, snapshot);
            Consistent(next) && h.revisions <= next.revisions
  {
    var next, n := Appended(h, kind, source, actorId, byAdmin, snapshot), |h.revisions|;
    forall k | 0 <= k < |next.revisions| ensures RevisionSound(next, k) {
      if k < n {
        assert RevisionSound(h, k);
        assert next.revisions[k] == h.revisions[k] && (k > 0 ==> next.revisions[k - 1] == h.revisions[k - 1]);
      }
    }
  }

  /** What a call is before it is served: a change of status is one of the two. */
  predicate Admissible(call: Call) {
    call.ChangeStatus? ==> call.kind == CancelledKind || call.kind == RestoredKind
  }

  lemma ServeStatusKeeps(h: History, call: Call)
    requires Consistent(h) && Admissible(call) && call.ChangeStatus?
    ensures Consistent(Serve(h, call).0) && h.revisions <= Serve(h, call).0.revisions
  {
    ConsistentIsReadable(h);
    if Serve(h, call).0 != h {
      var last, now := h.revisions[|h.revisions| - 1], Later(h, call.clock);
      assert RevisionSound(h, |h.revisions| - 1);
      var q, status := RequestOf(call, h.row.order), TargetStatus(call.kind);
      AppendedConsistent(h, call.kind, AdminSession, call.admin, true,
                         last.snapshot.(status := status,
                                        cancelledAt := if status == Cancelled then Some(now) else None,
                                        revision := h.row.revision + 1, updatedAt := now, statusMark := Some(q)));
    }
  }

  lemma ServeAdminKeeps(h: History, call: Call)
    requires Consistent(h) && call.CorrectByAdmin?
    ensures Consistent(Serve(h, call).0) && h.revisions <= Serve(h, call).0.revisions
  {
    ConsistentIsReadable(h);
    if Serve(h, call).0 != h {
      var last, now := h.revisions[|h.revisions| - 1], Later(h, call.clock);
      assert RevisionSound(h, |h.revisions| - 1);
      var answers := PreserveRepairs(Canonical(call.asked, h.row.order), h.row.answers, h.row.maintenance);
      AppendedConsistent(h, CorrectedKind, AdminSession, call.admin, true,
                         last.snapshot.(revision := h.row.revision + 1, updatedAt := now, answers := answers,
                                        adminMark := Some(RequestOf(call, h.row.order))));
    }
  }

  lemma ServeGuestKeeps(h: History, call: Call)
    requires Consistent(h) && call.CorrectByGuest?
    ensures Consistent(Serve(h, call).0) && h.revisions <= Serve(h, call).0.revisions
  {
    ConsistentIsReadable(h);
    if Serve(h, call).0 != h {
      assert RevisionSound(h, |h.revisions| - 1);
      var requested := Canonical(call.asked, h.row.order);
      var answers := if call.keepNote then requested.(generalNote := h.row.answers.generalNote) else requested;
      AppendedConsistent(h, CorrectedKind, PrivateLink, call.authorId, false,
                         Snapshot(Submitted, None, h.row.revision + 1, Later(h, call.clock), answers, None, None,
                                  Some(RequestOf(call, h.row.order))));
    }
  }

  lemma ServeKeeps(h: History, call: Call)
    requires Consistent(h) && Admissible(call)
    ensures Consistent(Serve(h, call).0) && h.revisions <= Serve(h, call).0.revisions
    ensures Serve(h, call).0.row.order == h.row.order
  {
    match call
    case ChangeStatus(_, _, _, _, _) => ServeStatusKeeps(h, call);
    case CorrectByAdmin(_, _, _, _, _, _) => ServeAdminKeeps(h, call);
    case CorrectByGuest(_, _, _, _, _, _, _, _) => ServeGuestKeeps(h, call);
  }

  function Run(h: History, calls: seq<Call>): History
    decreases |calls|
  {
    if calls == [] then h else Run(Serve(h, calls[0]).0, calls[1..])
  }

  predicate AllAdmissible(calls: seq<Call>) {
    forall i :: 0 <= i < |calls| ==> Admissible(calls[i])
  }

  /** Over any run the revisions are numbered without a gap, keep their statuses in
      step with their kinds, and are never changed or lost. */
  lemma {:induction false} RunKeeps(h: History, calls: seq<Call>)
    requires Consistent(h) && AllAdmissible(calls)
    ensures var after := Run(h, calls);
            Consistent(after) && Readable(after) && h.revisions <= after.revisions && after.row.order == h.row.order
    decreases |calls|
  {
    ConsistentIsReadable(h);
    if calls != [] {
      ServeKeeps(h, calls[0]);
      RunKeeps(Serve(h, calls[0]).0, calls[1..]);
    }
  }
}
