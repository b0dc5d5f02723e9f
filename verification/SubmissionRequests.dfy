/** Repeated requests on a submission take effect once. */
module SubmissionRequests {
  import opened Wrappers
  import opened SubmissionHistory

  function Expected(q: Request): int {
    q.expectedRevision
  }

  function MarkOf(r: Revision, q: Request): Option<Request> {
    match q
    case StatusRequest(_, _, _, _) => r.snapshot.statusMark
    case AdminCorrection(_, _, _, _, _) => r.snapshot.adminMark
    case GuestCorrection(_, _, _, _, _) => r.snapshot.guestMark
  }

  /** The revision that a request made, and not a later one that carries its mark along. */
  predicate Own(r: Revision, q: Request) {
    MarkOf(r, q) == Some(q) && Expected(q) == r.version - 1
  }

  function ReceiptFor(r: Revision, q: Request): Receipt {
    if q.StatusRequest? then StatusReceipt(r, TargetStatus(q.kind)) else CorrectionReceipt(r)
  }

  predicate IsRequest(call: Call, q: Request, order: seq<string>) {
    && ((call.ChangeStatus? || call.CorrectByAdmin?) ==> call.admin.Some?)
    && RequestOf(call, order) == q
  }

  /** Where a call may be made at all: corrections need a submitted checklist, and a
      guest's needs the link. */
  predicate Available(h: History, call: Call) {
    match call
    case ChangeStatus(_, _, _, _, _) => true
    case CorrectByAdmin(_, _, _, _, _, _) => h.row.status == Submitted
    case CorrectByGuest(linkValid, _, _, _, _, _, _, _) => linkValid && h.row.status == Submitted
  }

  predicate Changes(r: Result<Receipt, SubmissionError>) {
    r.Ok? && r.value.changed
  }

  /** A success that reports a change is about the revision the request made. */
  lemma ChangeIsOwn(h: History, call: Call, q: Request)
    requires Consistent(h) && Admissible(call) && IsRequest(call, q, h.row.order) && Changes(Serve(h, call).1)
    ensures var after := Serve(h, call).0;
            && 0 <= Expected(q) < |after.revisions| && Own(after.revisions[Expected(q)], q)
            && Serve(h, call).1.value == ReceiptFor(after.revisions[Expected(q)], q)
    ensures Serve(h, call).0 != h ==> Expected(q) == |h.revisions|
  {
    ConsistentIsReadable(h);
  }

  /** The revision of a request answers its repeats, wherever they may be made, and
      in whatever state the checklist is by then. */
  lemma OwnRevisionAnswers(h: History, call: Call, q: Request)
    requires Consistent(h) && Admissible(call) && IsRequest(call, q, h.row.order)
    requires 0 <= Expected(q) < |h.revisions| && Own(h.revisions[Expected(q)], q)
    ensures Serve(h, call).0 == h
    ensures Serve(h, call).1.Ok? <==> Available(h, call)
    ensures Available(h, call) ==> Serve(h, call).1 == Ok(ReceiptFor(h.revisions[Expected(q)], q))
  {
    ConsistentIsReadable(h);
    assert RevisionSound(h, Expected(q));
  }

  /** After a request changed a submission, a repeat at any later moment changes
      nothing; it succeeds exactly where it may be made, with the same receipt. */
  lemma RepeatReturnsSameReceipt(h: History, q: Request, first: Call, between: seq<Call>, again: Call)
    requires Consistent(h) && Admissible(first) && Admissible(again) && AllAdmissible(between)
    requires IsRequest(first, q, h.row.order) && IsRequest(again, q, h.row.order)
    requires Changes(Serve(h, first).1)
    ensures var later := Run(Serve(h, first).0, between);
            && Serve(later, again).0 == later
            && (Serve(later, again).1.Ok? <==> Available(later, again))
            && (Serve(later, again).1.Ok? ==> Serve(later, again).1 == Serve(h, first).1)
  {
    var own := Serve(h, first).0;
    ServeKeeps(h, first);
    ChangeIsOwn(h, first, q);
    RunKeeps(own, between);
    var later := Run(own, between);
    assert later.revisions[Expected(q)] == own.revisions[Expected(q)];
    OwnRevisionAnswers(later, again, q);
  }

  /** How often a request adds a revision in a run. */
  function Additions(h: History, calls: seq<Call>, q: Request): nat
    decreases |calls|
  {
    if calls == [] then 0
    else
      (if IsRequest(calls[0], q, h.row.order) && Serve(h, calls[0]).0 != h then 1 else 0)
      + Additions(Serve(h, calls[0]).0, calls[1..], q)
  }

  lemma AddsAtItsRevision(h: History, call: Call, q: Request)
    requires Consistent(h) && Admissible(call) && IsRequest(call, q, h.row.order) && Serve(h, call).0 != h
    ensures h.row.revision == Expected(q) && Serve(h, call).0.row.revision == Expected(q) + 1
  {
    ConsistentIsReadable(h);
  }

  lemma {:induction false} PastRevisionNeverAdds(h: History, calls: seq<Call>, q: Request)
    requires Consistent(h) && AllAdmissible(calls) && Expected(q) < h.row.revision
    ensures Additions(h, calls, q) == 0
    decreases |calls|
  {
    if calls != [] {
      ServeKeeps(h, calls[0]);
      if IsRequest(calls[0], q, h.row.order) && Serve(h, calls[0]).0 != h {
        AddsAtItsRevision(h, calls[0], q);
      }
      assert |h.revisions| <= |Serve(h, calls[0]).0.revisions|;
      PastRevisionNeverAdds(Serve(h, calls[0]).0, calls[1..], q);
    }
  }

  /** However often and among whatever others it is sent, a request adds at most one
      revision. */
  lemma {:induction false} RequestAddsAtMostOnce(h: History, calls: seq<Call>, q: Request)
    requires Consistent(h) && AllAdmissible(calls)
    ensures Additions(h, calls, q) <= 1
    decreases |calls|
  {
    if calls != [] {
      ServeKeeps(h, calls[0]);
      if IsRequest(calls[0], q, h.row.order) && Serve(h, calls[0]).0 != h {
        AddsAtItsRevision(h, calls[0], q);
        PastRevisionNeverAdds(Serve(h, calls[0]).0, calls[1..], q);
      } else {
        RequestAddsAtMostOnce(Serve(h, calls[0]).0, calls[1..], q);
      }
    }
  }

  // ---------------------------------------------------------------- the order of answers does not matter

  predicate RanksRise(items: seq<Answer>, order: seq<string>) {
    forall i, j :: 0 <= i < j < |items| ==> Rank(order, items[i].itemId) <= Rank(order, items[j].itemId)
  }

  lemma RanksRiseTo(items: seq<Answer>, last: Answer, order: seq<string>)
    requires RanksRise(items, order)
    requires forall x :: x in multiset(items) ==> Rank(order, x.itemId) <= Rank(order, last.itemId)
    ensures RanksRise(items + [last], order)
  {
    forall i | 0 <= i < |items| ensures Rank(order, items[i].itemId) <= Rank(order, last.itemId) {
      assert items[i] in multiset(items);
    }
  }

  lemma {:induction false} InsertAnswerHolds(items: seq<Answer>, answer: Answer, order: seq<string>)
    ensures multiset(InsertAnswer(items, answer, order)) == multiset(items) + multiset{answer}
  {
    if items != [] {
      assert items == items[..|items| - 1] + [items[|items| - 1]];
      InsertAnswerHolds(items[..|items| - 1], answer, order);
    }
  }

  lemma {:induction false} InsertAnswerSorts(items: seq<Answer>, answer: Answer, order: seq<string>)
    requires RanksRise(items, order)
    ensures RanksRise(InsertAnswer(items, answer, order), order)
    ensures multiset(InsertAnswer(items, answer, order)) == multiset(items) + multiset{answer}
  {
    InsertAnswerHolds(items, answer, order);
    if items != [] {
      var front, last := items[..|items| - 1], items[|items| - 1];
      if Rank(order, last.itemId) <= Rank(order, answer.itemId) {
        RanksRiseTo(items, answer, order);
      } else {
        InsertAnswerSorts(front, answer, order);
        RanksRiseTo(InsertAnswer(front, answer, order), last, order);
      }
    }
  }

  lemma {:induction false} SortAnswersSorts(items: seq<Answer>, order: seq<string>)
    ensures RanksRise(SortAnswers(items, order), order) && multiset(SortAnswers(items, order)) == multiset(items)
  {
    if items != [] {
      assert items == items[..|items| - 1] + [items[|items| - 1]];
      SortAnswersSorts(items[..|items| - 1], order);
      InsertAnswerSorts(SortAnswers(items[..|items| - 1], order), items[|items| - 1], order);
    }
  }

  /** No two answers are at the same place of the checklist. */
  predicate DistinctPlaces(items: multiset<Answer>, order: seq<string>) {
    && (forall a, b :: a in items && b in items && Rank(order, a.itemId) == Rank(order, b.itemId) ==> a == b)
    && (forall a :: a in items ==> items[a] == 1)
  }

  lemma SortedHead(a: seq<Answer>, b: seq<Answer>, order: seq<string>)
    requires multiset(a) == multiset(b) && DistinctPlaces(multiset(a), order) && a != []
    requires RanksRise(a, order) && RanksRise(b, order)
    ensures b != [] && a[0] == b[0]
  {
    assert a[0] in multiset(b);
    assert b[0] in multiset(a);
    var i :| 0 <= i < |b| && b[i] == a[0];
    var j :| 0 <= j < |a| && a[j] == b[0];
    assert Rank(order, a[0].itemId) <= Rank(order, a[j].itemId) && Rank(order, b[0].itemId) <= Rank(order, b[i].itemId);
  }

  lemma TailMultiset(a: seq<Answer>)
    requires a != []
    ensures multiset(a[1..]) == multiset(a) - multiset{a[0]}
  {
    assert a == [a[0]] + a[1..];
  }

  lemma DistinctTail(all: multiset<Answer>, head: Answer, order: seq<string>)
    requires DistinctPlaces(all, order)
    ensures DistinctPlaces(all - multiset{head}, order)
  {
    var rest := all - multiset{head};
    forall x | x in rest ensures x in all && rest[x] == 1 {
    }
  }

  lemma RanksRiseTail(a: seq<Answer>, order: seq<string>)
    requires a != [] && RanksRise(a, order)
    ensures RanksRise(a[1..], order)
  {
  }

  lemma SameParts(a: seq<Answer>, b: seq<Answer>)
    requires a != [] && b != [] && a[0] == b[0] && a[1..] == b[1..]
    ensures a == b
  {
    assert a == [a[0]] + a[1..] && b == [b[0]] + b[1..];
  }

  lemma {:induction false} SortedIsUnique(a: seq<Answer>, b: seq<Answer>, order: seq<string>)
    requires multiset(a) == multiset(b) && DistinctPlaces(multiset(a), order)
    requires RanksRise(a, order) && RanksRise(b, order)
    ensures a == b
  {
    if a == [] {
      assert |b| == |multiset(b)|;
    } else {
      SortedHead(a, b, order);
      TailMultiset(a);
      TailMultiset(b);
      DistinctTail(multiset(a), a[0], order);
      RanksRiseTail(a, order);
      RanksRiseTail(b, order);
      SortedIsUnique(a[1..], b[1..], order);
      SameParts(a, b);
    }
  }

  /** The same answers in another order make the same request. */
  lemma OrderDoesNotMatter(a: seq<Answer>, b: seq<Answer>, order: seq<string>)
    requires multiset(a) == multiset(b) && DistinctPlaces(multiset(a), order)
    ensures SortAnswers(a, order) == SortAnswers(b, order)
  {
    SortAnswersSorts(a, order);
    SortAnswersSorts(b, order);
    SortedIsUnique(SortAnswers(a, order), SortAnswers(b, order), order);
  }

  // ---------------------------------------------------------------- the services

  class SubmissionTables {
    var row: Row
    var revisions: seq<Revision>

    function Tables(): History
      reads this
    {
      History(row, revisions)
    }

    /** The compare-and-swap on the row and the revision that goes with it. */
    method Append(kind: Kind, source: ActorSource, actorId: Option<string>, byAdmin: bool, snapshot: Snapshot)
      modifies this
      ensures Tables() == Appended(old(Tables()), kind, source, actorId, byAdmin, snapshot)
    {
      row := row.(status := snapshot.status, cancelledAt := snapshot.cancelledAt, revision := snapshot.revision,
                  answers := snapshot.answers, updatedAt := snapshot.updatedAt);
      revisions := revisions + [Revision(snapshot.revision, kind, snapshot.status, source, actorId, byAdmin, snapshot,
                                         snapshot.updatedAt)];
    }

    method ChangeStatus(admin: Option<string>, kind: Kind, expectedRevision: int, reason: string, clock: int)
      returns (r: Result<Receipt, SubmissionError>)
      requires kind == CancelledKind || kind == RestoredKind
      modifies this
      ensures (Tables(), r) == Serve(old(Tables()), Call.ChangeStatus(admin, kind, expectedRevision, reason, clock))
    {
      if admin.None? {
        return Err(Unauthorized);
      }
      if !Readable(Tables()) {
        return Err(InvalidRecord);
      }
      var q := StatusRequest(admin.value, kind, expectedRevision, reason);
      if row.revision != expectedRevision {
        if expectedRevision < row.revision {
          return StatusRetried(Tables(), q);
        }
        return Err(SubmissionChanged);
      }
      var before, status := if kind == CancelledKind then Submitted else Cancelled,
                            if kind == CancelledKind then Cancelled else Submitted;
      if row.status != before {
        return Err(InvalidTransition);
      }
      if row.revision >= MAX_REVISION {
        return Err(SubmissionChanged);
      }
      var now := Max(clock, row.updatedAt + 1);
      var cancelledAt := if status == Cancelled then Some(now) else None;
      var version := row.revision + 1;
      var snapshot := ByVersion(Tables(), row.revision).value.snapshot.(
        status := status, cancelledAt := cancelledAt, revision := version, updatedAt := now, statusMark := Some(q));
      Append(kind, AdminSession, admin, true, snapshot);
      return Ok(Receipt(status, version, now, cancelledAt, true));
    }

    method CorrectByAdmin(admin: Option<string>, expectedRevision: int, asked: Answers, reason: string,
                          issuesAccept: bool, clock: int)
      returns (r: Result<Receipt, SubmissionError>)
      modifies this
      ensures (Tables(), r)
              == Serve(old(Tables()), Call.CorrectByAdmin(admin, expectedRevision, asked, reason, issuesAccept, clock))
    {
      if admin.None? {
        return Err(Unauthorized);
      }
      if row.status != Submitted {
        return Err(Ineligible);
      }
      if !Readable(Tables()) {
        return Err(InvalidRecord);
      }
      var requested := Canonical(asked, row.order);
      var q := AdminCorrection(admin.value, expectedRevision, requested.items, requested.generalNote, reason);
      if row.revision != expectedRevision {
        if expectedRevision < row.revision {
          return AdminRetried(Tables(), q);
        }
        return Err(SubmissionChanged);
      }
      if row.revision >= MAX_REVISION {
        return Err(SubmissionChanged);
      }
      var answers := PreserveRepairs(requested, row.answers, row.maintenance);
      if answers == Canonical(row.answers, row.order) {
        return Ok(Receipt(Submitted, row.revision, row.updatedAt, None, false));
      }
      if !issuesAccept {
        return Err(IssuesRefused);
      }
      var now := Max(clock, row.updatedAt + 1);
      var version := row.revision + 1;
      var snapshot := ByVersion(Tables(), row.revision).value.snapshot.(
        revision := version, updatedAt := now, answers := answers, adminMark := Some(q));
      Append(CorrectedKind, AdminSession, admin, true, snapshot);
      return Ok(Receipt(Submitted, version, now, None, true));
    }

    method CorrectByGuest(linkValid: bool, authorId: Option<string>, expectedRevision: int, asked: Answers,
                          keepNote: bool, reason: Option<string>, issuesAccept: bool, clock: int)
      returns (r: Result<Receipt, SubmissionError>)
      modifies this
      ensures (Tables(), r)
              == Serve(old(Tables()), Call.CorrectByGuest(linkValid, authorId, expectedRevision, asked, keepNote,
                                                          reason, issuesAccept, clock))
    {
      if !linkValid || row.status != Submitted {
        return Err(Unauthorized);
      }
      if !Readable(Tables()) {
        return Err(InvalidRecord);
      }
      var requested := Canonical(asked, row.order);
      var q := GuestCorrection(expectedRevision, requested.items, keepNote, requested.generalNote, reason);
      if row.revision != expectedRevision {
        if expectedRevision < row.revision {
          return GuestRetried(Tables(), q);
        }
        return Err(SubmissionChanged);
      }
      if row.revision >= MAX_REVISION {
        return Err(SubmissionChanged);
      }
      var answers := if keepNote then requested.(generalNote := row.answers.generalNote) else requested;
      if answers == Canonical(row.answers, row.order) {
        return Ok(Receipt(Submitted, row.revision, row.updatedAt, None, false));
      }
      if !issuesAccept {
        return Err(IssuesRefused);
      }
      var now := Max(clock, row.updatedAt + 1);
      var version := row.revision + 1;
      Append(CorrectedKind, PrivateLink, authorId, false,
             Snapshot(Submitted, None, version, now, answers, None, None, Some(q)));
      return Ok(Receipt(Submitted, version, now, None, true));
    }
  }
}
