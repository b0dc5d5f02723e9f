/** The message dispatch table and the writes that change it.

    A claim row is committed before any remote call; every later write either
    belongs to the one caller that made the claim or compares and swaps on
    `updatedAt`, which is a fresh stamp on every write. */
module Messaging {
  import opened Wrappers
  import opened Provider
  import Text

  const PREVIEW_TTL_MS := 10 * 60 * 1000
  const STALE_SENDING_MS := 60_000
  const MAX_BODY := 1000

  datatype SubjectType = StaySubject | TaskSubject

  datatype Subject = Subject(kind: SubjectType, id: string)

  datatype MessageKind =
    | GuestCheckin | GuestCheckout | GuestChange | GuestCancel
    | StaffAssignment | StaffChange | StaffCancel

  datatype Mode = Manual | Automatic

  /** The key of an automation job: one reminder per subject and kind, one event
      per subject, kind, observed change and source version. */
  datatype JobKey =
    | Reminder(subject: Subject, kind: MessageKind)
    | Event(subject: Subject, kind: MessageKind, sequence: nat, version: int)

  /** What `idempotencyKey` renders. */
  datatype RequestKey = ManualKey(requestKey: string) | AutomaticKey(job: JobKey)

  /** What `contextHash` digests; digests are taken as injective. */
  datatype ContextDigest = ContextDigest(
    subject: Subject, kind: MessageKind, to: Option<string>, content: string, identity: string, routing: string)

  /** What `deduplicationKey` digests: the message event. */
  datatype EventKey = EventKey(subject: Subject, kind: MessageKind, identity: string)

  datatype PreviewKey = PreviewKey(issuedAt: int, digest: ContextDigest)

  /** The domain state a message is built from, as read in one transaction. */
  datatype Context = Context(
    subject: Subject, kind: MessageKind, version: int, to: Option<string>, body: string, content: string,
    blocked: bool, identity: string, eventIdentity: string, routing: string)

  datatype DispatchInput = DispatchInput(
    subject: Subject, kind: MessageKind, key: RequestKey, mode: Mode,
    expectedVersion: Option<int>, previewKey: Option<PreviewKey>)

  datatype Dispatch = Dispatch(
    subject: Subject, kind: MessageKind, mode: Mode, key: RequestKey,
    deduplicationKey: Option<EventKey>, contextHash: ContextDigest,
    status: Status, messageId: Option<string>, groupId: Option<string>, errorCode: Option<string>,
    createdAt: int, updatedAt: nat, lastCheckedAt: Option<int>)

  datatype MessagingError =
    | RequestKeyConflict
    | AlreadyRequested
    | PreviewChanged
    | MessagingBlocked
    | Unauthenticated

  function ContextHash(c: Context): ContextDigest {
    ContextDigest(c.subject, c.kind, c.to, c.content, c.identity, c.routing)
  }

  function EventOf(c: Context): EventKey {
    EventKey(c.subject, c.kind, c.eventIdentity)
  }

  predicate ValidPreview(key: PreviewKey, digest: ContextDigest, now: int) {
    0 <= now - key.issuedAt <= PREVIEW_TTL_MS && key.digest == digest
  }

  function AssertReady(c: Context, input: DispatchInput, now: int): Option<MessagingError> {
    if input.expectedVersion.Some? && input.expectedVersion.value != c.version then Some(PreviewChanged)
    else if input.previewKey.Some? && !ValidPreview(input.previewKey.value, ContextHash(c), now) then
      Some(PreviewChanged)
    else if c.blocked || Text.Utf16Length(c.body) > MAX_BODY || c.to.None? then Some(MessagingBlocked)
    else None
  }

  predicate HasKey(rows: seq<Dispatch>, key: RequestKey) {
    exists i :: 0 <= i < |rows| && rows[i].key == key
  }

  predicate HasEvent(rows: seq<Dispatch>, event: EventKey) {
    exists i :: 0 <= i < |rows| && rows[i].deduplicationKey == Some(event)
  }

  function ExistingResult(id: nat, row: Dispatch, input: DispatchInput): Result<nat, MessagingError> {
    if row.subject != input.subject || row.kind != input.kind || row.mode != input.mode
    then Err(RequestKeyConflict) else Ok(id)
  }

  // ---------------------------------------------------------------- the writes on values

  function ClaimedRow(input: DispatchInput, c: Context, now: int, stamp: nat): Dispatch {
    Dispatch(input.subject, input.kind, input.mode, input.key, Some(EventOf(c)), ContextHash(c),
             Sending, None, None, None, now, stamp, None)
  }

  /** The claim goes through: nothing blocks it, no attempt at the same event is
      still open and the request key is new. */
  predicate Claims(rows: seq<Dispatch>, input: DispatchInput, c: Context, now: int, authorized: bool) {
    authorized && AssertReady(c, input, now).None? && !HasEvent(rows, EventOf(c)) && !HasKey(rows, input.key)
  }

  lemma KeyBehind(rows: seq<Dispatch>, key: RequestKey)
    requires HasKey(rows, key) && rows[0].key != key
    ensures HasKey(rows[1..], key)
  {
    var i :| 0 <= i < |rows| && rows[i].key == key;
    assert rows[1..][i - 1].key == key;
  }

  function FirstWithKey(rows: seq<Dispatch>, key: RequestKey): (id: nat)
    requires HasKey(rows, key)
    ensures id < |rows| && rows[id].key == key
  {
    if rows[0].key == key then 0 else
      KeyBehind(rows, key);
      1 + FirstWithKey(rows[1..], key)
  }

  function Existing(rows: seq<Dispatch>, input: DispatchInput): Result<nat, MessagingError>
    requires HasKey(rows, input.key)
  {
    var id := FirstWithKey(rows, input.key);
    ExistingResult(id, rows[id], input)
  }

  /** The answer to a claim that does not go through. `beaten` means that a racing
      claim committed after this one's own look-ups: then the unique indexes refuse
      the insert, and a row with the request's key answers even for an open event. */
  function RefusedClaim(rows: seq<Dispatch>, input: DispatchInput, c: Context, now: int, authorized: bool,
                        beaten: bool): Result<nat, MessagingError>
    requires !Claims(rows, input, c, now, authorized)
  {
    if !authorized then Err(Unauthenticated)
    else if AssertReady(c, input, now).Some? then Err(AssertReady(c, input, now).value)
    else if HasKey(rows, input.key) && (beaten || !HasEvent(rows, EventOf(c))) then Existing(rows, input)
    else Err(AlreadyRequested)
  }

  function FailedLocally(row: Dispatch, stamp: nat): Dispatch {
    row.(status := Failed, deduplicationKey := None, errorCode := Some("CONTEXT_CHANGED_BEFORE_SEND"),
         updatedAt := stamp)
  }

  function Recorded(row: Dispatch, result: ProviderResult, now: int, stamp: nat): Dispatch {
    row.(status := result.status, messageId := result.messageId, groupId := result.groupId,
         errorCode := result.errorCode, lastCheckedAt := Some(now),
         deduplicationKey := if result.status == Failed then None else row.deduplicationKey,
         updatedAt := stamp)
  }

  /** Whether a refresh of this row goes on to write, or returns it as it is. */
  predicate RefreshProceeds(row: Dispatch, now: int) {
    && row.status != Delivered && row.status != Failed
    && (row.messageId.None? && row.status == Sending ==> row.createdAt <= now - STALE_SENDING_MS)
  }

  /** What a refresh that read `row` writes if nobody wrote in between. */
  function Refreshed(row: Dispatch, reply: LookupReply, now: int, stamp: nat): Dispatch {
    if row.messageId.None? then
      row.(status := Unknown, lastCheckedAt := Some(now), errorCode := Some("PROVIDER_OUTCOME_UNKNOWN"),
           updatedAt := stamp)
    else
      var result := LookupOutcome(row.messageId.value, reply);
      var status := if result.status == Unknown && row.status == Accepted then row.status else result.status;
      row.(status := status, lastCheckedAt := Some(now), errorCode := result.errorCode,
           deduplicationKey := if status == Failed then None else row.deduplicationKey,
           updatedAt := stamp)
  }

  // ---------------------------------------------------------------- what the writes mean

  /** A message may go out exactly for the version and the preview that its caller saw, no
      later than ten minutes after the preview, to a recipient, and while nothing blocks it. */
  lemma ReadyMeans(c: Context, input: DispatchInput, now: int)
    ensures var seen := && (input.expectedVersion.Some? ==> input.expectedVersion.value == c.version)
                        && (input.previewKey.Some? ==>
                              && input.previewKey.value.issuedAt <= now <= input.previewKey.value.issuedAt + 600_000
                              && input.previewKey.value.digest
                                 == ContextDigest(c.subject, c.kind, c.to, c.content, c.identity, c.routing));
            && (AssertReady(c, input, now).None? <==>
                  seen && !c.blocked && c.to.Some? && Text.Utf16Length(c.body) <= 1000)
            && (AssertReady(c, input, now) == Some(PreviewChanged) <==> !seen)
            && (AssertReady(c, input, now).Some? && seen ==> AssertReady(c, input, now) == Some(MessagingBlocked))
  {
  }

  /** The first row under a key answers for it, if it is about the same message in the same
      mode. */
  lemma {:induction false} ExistingMeans(rows: seq<Dispatch>, input: DispatchInput)
    requires HasKey(rows, input.key)
    ensures exists id: nat ::
              && id < |rows| && rows[id].key == input.key && (forall i :: 0 <= i < id ==> rows[i].key != input.key)
              && (var row := rows[id];
                  Existing(rows, input)
                  == if row.subject == input.subject && row.kind == input.kind && row.mode == input.mode then Ok(id)
                     else Err(RequestKeyConflict))
  {
    var id := FirstWithKey(rows, input.key);
    FirstIsFirst(rows, input.key);
    assert rows[id].key == input.key;
  }

  lemma {:induction false} FirstIsFirst(rows: seq<Dispatch>, key: RequestKey)
    requires HasKey(rows, key)
    ensures forall i :: 0 <= i < FirstWithKey(rows, key) ==> rows[i].key != key
  {
    if rows[0].key != key {
      KeyBehind(rows, key);
      FirstIsFirst(rows[1..], key);
      forall i | 0 <= i < FirstWithKey(rows, key) ensures rows[i].key != key {
        assert i > 0 ==> rows[i] == rows[1..][i - 1];
      }
    }
  }

  /** Why a claim does not go through: nobody is signed in, the message is not ready, its key
      was used, or its event is open -- in this order, except that a claim that was not beaten
      to its key looks at the event first. */
  lemma RefusedClaimMeans(rows: seq<Dispatch>, input: DispatchInput, c: Context, now: int, authorized: bool,
                          beaten: bool)
    requires !Claims(rows, input, c, now, authorized)
    ensures var r := RefusedClaim(rows, input, c, now, authorized, beaten);
            var known := exists row :: row in rows && row.key == input.key;
            var open := exists row :: row in rows
                                      && row.deduplicationKey == Some(EventKey(c.subject, c.kind, c.eventIdentity));
            && (r == Err(Unauthenticated) <==> !authorized)
            && (authorized && AssertReady(c, input, now).Some? ==> r == Err(AssertReady(c, input, now).value))
            && (authorized && AssertReady(c, input, now).None? ==>
                  && (known || open)
                  && if known && (beaten || !open) then HasKey(rows, input.key) && r == Existing(rows, input)
                     else r == Err(AlreadyRequested))
  {
    assert HasKey(rows, input.key) <==> exists row :: row in rows && row.key == input.key;
    assert HasEvent(rows, EventOf(c))
           <==> exists row :: row in rows
                              && row.deduplicationKey == Some(EventKey(c.subject, c.kind, c.eventIdentity));
  }

  /** A claimed row is about what was asked and not sent yet. */
  lemma ClaimedMeans(input: DispatchInput, c: Context, now: int, stamp: nat)
    ensures var row := ClaimedRow(input, c, now, stamp);
            && row.subject == input.subject && row.kind == input.kind && row.mode == input.mode
            && row.key == input.key && row.status == Sending
            && row.deduplicationKey == Some(EventKey(c.subject, c.kind, c.eventIdentity))
            && row.contextHash == ContextDigest(c.subject, c.kind, c.to, c.content, c.identity, c.routing)
            && row.messageId.None? && row.groupId.None? && row.errorCode.None? && row.lastCheckedAt.None?
            && row.createdAt == now && row.updatedAt == stamp
  {
  }

  /** The columns that no write after the claim changes. */
  predicate SameClaim(a: Dispatch, b: Dispatch) {
    && a.subject == b.subject && a.kind == b.kind && a.mode == b.mode && a.key == b.key
    && a.contextHash == b.contextHash && a.createdAt == b.createdAt
  }

  lemma FailedLocallyMeans(row: Dispatch, stamp: nat)
    ensures var next := FailedLocally(row, stamp);
            && SameClaim(row, next) && next.status == Failed && next.deduplicationKey.None?
            && next.errorCode == Some("CONTEXT_CHANGED_BEFORE_SEND") && next.updatedAt == stamp
            && next.messageId == row.messageId && next.groupId == row.groupId
            && next.lastCheckedAt == row.lastCheckedAt
  {
  }

  /** The provider's result lands on the row, and only a failure frees its event. */
  lemma RecordedMeans(row: Dispatch, result: ProviderResult, now: int, stamp: nat)
    ensures var next := Recorded(row, result, now, stamp);
            && SameClaim(row, next) && next.status == result.status && next.messageId == result.messageId
            && next.groupId == result.groupId && next.errorCode == result.errorCode
            && next.lastCheckedAt == Some(now) && next.updatedAt == stamp
            && next.deduplicationKey == if result.status == Failed then None else row.deduplicationKey
  {
  }

  /** A code that the provider gave for the row's message, and that is not unclear. */
  predicate ClearCode(row: Dispatch, reply: LookupReply) {
    row.messageId.Some? && reply.Found? && !Says(reply.statusCode, Unknown)
  }

  /** A refresh takes over what a clear code says; otherwise an accepted row stays accepted
      and any other becomes unclear. The event is freed on a rejecting code and never else. */
  lemma RefreshMeans(row: Dispatch, reply: LookupReply, now: int, stamp: nat)
    ensures var next := Refreshed(row, reply, now, stamp);
            && SameClaim(row, next) && next.messageId == row.messageId && next.groupId == row.groupId
            && next.lastCheckedAt == Some(now) && next.updatedAt == stamp
            && (ClearCode(row, reply) ==> Says(reply.statusCode, next.status))
            && (!ClearCode(row, reply) ==>
                  next.status == if row.messageId.Some? && row.status == Accepted then Accepted else Unknown)
            && next.deduplicationKey
               == (if row.messageId.Some? && reply.Found? && reply.statusCode.Some?
                      && RejectedCode(reply.statusCode.value)
                   then None else row.deduplicationKey)
            && next.errorCode
               == (if row.messageId.None? then Some("PROVIDER_OUTCOME_UNKNOWN")
                   else LookupOutcome(row.messageId.value, reply).errorCode)
  {
    if row.messageId.Some? {
      LookupOutcomeMeans(row.messageId.value, reply);
    }
  }

  /** Delivered and failed rows are settled, and a row still being sent is left alone for a
      minute; every other row is looked up. */
  lemma RefreshProceedsIff(row: Dispatch, now: int)
    ensures RefreshProceeds(row, now) <==>
              && row.status !in {Delivered, Failed}
              && (row.status == Sending && row.messageId.None? ==> row.createdAt + 60_000 <= now)
  {
  }

  lemma {:induction false} FirstIsAt(rows: seq<Dispatch>, key: RequestKey, i: nat)
    requires i < |rows| && rows[i].key == key && forall j :: 0 <= j < i ==> rows[j].key != key
    ensures HasKey(rows, key) && FirstWithKey(rows, key) == i
  {
    if i > 0 {
      FirstIsAt(rows[1..], key, i - 1);
    }
  }

  // ---------------------------------------------------------------- the table

  class DispatchTable {
    var rows: seq<Dispatch>
    var stamp: nat

    constructor ()
      ensures rows == [] && stamp == 0
    {
      rows, stamp := [], 0;
    }

    method FindByKey(key: RequestKey) returns (found: Option<nat>)
      ensures found.None? <==> !HasKey(rows, key)
      ensures found.Some? ==> HasKey(rows, key) && found.value == FirstWithKey(rows, key)
    {
      var i := 0;
      while i < |rows|
        invariant 0 <= i <= |rows|
        invariant forall j :: 0 <= j < i ==> rows[j].key != key
      {
        if rows[i].key == key {
          FirstIsAt(rows, key, i);
          return Some(i);
        }
        i := i + 1;
      }
      return None;
    }

    /** The claim transaction, with its unique-key fallback: when a racing claim made
        the insert fail, the request key's own row answers, if there is one. */
    method Claim(input: DispatchInput, c: Context, now: int, authorized: bool, beaten: bool)
      returns (r: Result<nat, MessagingError>, created: bool)
      modifies this
      ensures created <==> Claims(old(rows), input, c, now, authorized)
      ensures created ==> rows == old(rows) + [ClaimedRow(input, c, now, old(stamp))] && r == Ok(|old(rows)|)
      ensures created ==> stamp == old(stamp) + 1
      ensures !created ==> rows == old(rows) && stamp == old(stamp)
      ensures !created ==> r == RefusedClaim(rows, input, c, now, authorized, beaten)
    {
      created := false;
      if !authorized {
        return Err(Unauthenticated), false;
      }
      var problem := AssertReady(c, input, now);
      if problem.Some? {
        return Err(problem.value), false;
      }
      var open := HasEvent(rows, EventOf(c));
      if open && !beaten {
        return Err(AlreadyRequested), false;
      }
      var racing := FindByKey(input.key);
      if racing.Some? {
        r := ExistingResult(racing.value, rows[racing.value], input);
        return;
      }
      if open {
        return Err(AlreadyRequested), false;
      }
      r := Ok(|rows|);
      rows := rows + [ClaimedRow(input, c, now, stamp)];
      stamp := stamp + 1;
      created := true;
    }

    method FailBeforeSend(id: nat)
      requires id < |rows|
      modifies this
      ensures rows == old(rows)[id := FailedLocally(old(rows)[id], old(stamp))]
      ensures stamp == old(stamp) + 1
    {
      rows := rows[id := rows[id].(status := Failed, deduplicationKey := None,
                                   errorCode := Some("CONTEXT_CHANGED_BEFORE_SEND"), updatedAt := stamp)];
      stamp := stamp + 1;
    }

    method RecordResult(id: nat, result: ProviderResult, now: int)
      requires id < |rows|
      modifies this
      ensures rows == old(rows)[id := Recorded(old(rows)[id], result, now, old(stamp))]
      ensures stamp == old(stamp) + 1
    {
      var row := rows[id].(status := result.status, messageId := result.messageId, groupId := result.groupId,
                           errorCode := result.errorCode, lastCheckedAt := Some(now), updatedAt := stamp);
      if result.status == Failed {
        row := row.(deduplicationKey := None);
      }
      rows := rows[id := row];
      stamp := stamp + 1;
    }

    /** The write of a refresh that earlier read `read`. */
    method RefreshWrite(id: nat, read: Dispatch, reply: LookupReply, now: int)
      requires id < |rows|
      modifies this
      ensures old(rows)[id].updatedAt == read.updatedAt && old(rows)[id] == read ==>
                rows == old(rows)[id := Refreshed(read, reply, now, old(stamp))] && stamp == old(stamp) + 1
      ensures old(rows)[id].updatedAt != read.updatedAt ==> rows == old(rows) && stamp == old(stamp)
    {
      if read.messageId.None? {
        if rows[id].updatedAt == read.updatedAt {
          rows := rows[id := rows[id].(status := Unknown, lastCheckedAt := Some(now),
                                       errorCode := Some("PROVIDER_OUTCOME_UNKNOWN"), updatedAt := stamp)];
          stamp := stamp + 1;
        }
      } else {
        var result := LookupOutcome(read.messageId.value, reply);
        var status := if result.status == Unknown && read.status == Accepted then read.status else result.status;
        if rows[id].updatedAt == read.updatedAt {
          var row := rows[id].(status := status, lastCheckedAt := Some(now), errorCode := result.errorCode,
                               updatedAt := stamp);
          if status == Failed {
            row := row.(deduplicationKey := None);
          }
          rows := rows[id := row];
          stamp := stamp + 1;
        }
      }
    }
  }
}
