/** The automation runner: recovering dispatches whose jobs were left untied, and
    working off one job after the other. */
module AutomationRunner {
  import opened Wrappers
  import opened Messaging
  import opened Automation
  import Runs = AutomationRuns
  import Delivery = ReminderDelivery

  const PAGE := 100

  /** A dispatch made for a job, found by the job's key. */
  datatype Attempt = Attempt(id: nat, outcome: DispatchOutcome)

  type Attempts = map<JobKey, Attempt>

  function TieOf(attempt: Attempt): RunnerWrite {
    Tie(attempt.id, attempt.outcome)
  }

  // ---------------------------------------------------------------- working off one job

  datatype Preview = PreviewFailed | PreviewRefused | PreviewReady(key: PreviewKey)

  /** What a run over one job reads and is answered on its way: the attempt there is
      already, the source as it is now, the preview, whether the lease is renewed,
      the result of sending, and the attempt found after an error. */
  datatype Turn = Turn(existing: Option<Attempt>, now: int, source: Option<Source>, preview: Preview, keep: bool,
                       sent: Option<Attempt>, found: Option<Attempt>)

  predicate Open(source: Option<Source>, now: int) {
    && source.Some? && source.value.eligible && source.value.status != Completed
    && (source.value.subject.kind == StaySubject ==> now < source.value.endAt)
  }

  /** The source is what the job was written for. */
  predicate Matches(job: Job, source: Source) {
    source.fingerprint == job.sourceFingerprint && source.version == job.sourceVersion
  }

  predicate Current(job: Job, source: Option<Source>, now: int) {
    Open(source, now) && Matches(job, source.value)
  }

  function RequestFor(key: JobKey, job: Job, preview: PreviewKey): DispatchInput {
    Delivery.JobInput(key, job, job.sourceVersion, preview)
  }

  predicate Sends(job: Job, t: Turn) {
    && t.existing.None? && t.now - job.dueAt <= LATENESS_MS && Current(job, t.source, t.now)
    && t.preview.PreviewReady? && t.keep
  }

  function WriteAfterError(t: Turn): RunnerWrite {
    if t.found.Some? then TieOf(t.found.value) else Park(Blocked, NotReady)
  }

  /** What the run writes on the job, if anything. */
  function WriteOf(job: Job, t: Turn): Option<RunnerWrite> {
    if t.existing.Some? then Some(TieOf(t.existing.value))
    else if t.now - job.dueAt > LATENESS_MS then Some(Park(Skipped, MissedWindow))
    else if !Open(t.source, t.now) then Some(Park(Skipped, SourceClosed))
    else if !Matches(job, t.source.value) then Some(Park(Skipped, SourceChanged))
    else if t.preview.PreviewFailed? then Some(WriteAfterError(t))
    else if t.preview.PreviewRefused? then Some(Park(Blocked, NotReady))
    else if !t.keep then None
    else if t.sent.Some? then Some(TieOf(t.sent.value))
    else Some(WriteAfterError(t))
  }

  // ---------------------------------------------------------------- recovering attempts

  predicate Untied(jobs: Jobs, key: JobKey) {
    key in jobs && jobs[key].dispatchId.None?
  }

  /** The places, in the order of ids, of the untied jobs from a place on. */
  function UntiedFrom(jobs: Jobs, order: seq<JobKey>, from: nat): (rows: seq<nat>)
    requires from <= |order|
    ensures forall i :: 0 <= i < |rows| ==> from <= rows[i] < |order|
    decreases |order| - from
  {
    if from == |order| then []
    else (if Untied(jobs, order[from]) then [from] else []) + UntiedFrom(jobs, order, from + 1)
  }

  /** A query with a cursor starts at the cursor's place and skips the first row it
      finds -- which is the cursor itself only if that is still untied. */
  function FromCursor(jobs: Jobs, order: seq<JobKey>, cursor: Option<nat>): (rows: seq<nat>)
    requires cursor.Some? ==> cursor.value < |order|
    ensures forall i :: 0 <= i < |rows| ==> rows[i] < |order|
  {
    if cursor.None? then UntiedFrom(jobs, order, 0)
    else
      var rows := UntiedFrom(jobs, order, cursor.value);
      if rows == [] then [] else rows[1..]
  }

  function Take(rows: seq<nat>): seq<nat> {
    if |rows| <= PAGE then rows else rows[..PAGE]
  }

  function TiedOne(jobs: Jobs, key: JobKey, attempts: Attempts): Jobs {
    if key in attempts then Written(jobs, key, TieOf(attempts[key])) else jobs
  }

  function TiedAll(jobs: Jobs, order: seq<JobKey>, attempts: Attempts, page: seq<nat>): Jobs
    requires forall i :: 0 <= i < |page| ==> page[i] < |order|
  {
    if page == [] then jobs
    else TiedOne(TiedAll(jobs, order, attempts, page[..|page| - 1]), order[page[|page| - 1]], attempts)
  }

  // ---------------------------------------------------------------- working off what is due

  const DUE_PAGE := 25

  predicate Due(jobs: Jobs, key: JobKey, now: int) {
    key in jobs && (jobs[key].status == Pending || jobs[key].status == Blocked) && jobs[key].dueAt <= now
  }

  /** The places, in the order of due times and ids, of the due jobs from a place on. */
  function DueFrom(jobs: Jobs, order: seq<JobKey>, now: int, from: nat): (rows: seq<nat>)
    requires from <= |order|
    ensures forall i :: 0 <= i < |rows| ==> from <= rows[i] < |order| && Due(jobs, order[rows[i]], now)
    decreases |order| - from
  {
    if from == |order| then []
    else (if Due(jobs, order[from], now) then [from] else []) + DueFrom(jobs, order, now, from + 1)
  }

  function TurnJob(job: Job, t: Turn): Job {
    if WriteOf(job, t).Some? then WrittenJob(job, WriteOf(job, t).value) else job
  }

  /** What a run over a job, as it was read, leaves of the jobs as they are. */
  function RunOver(jobs: Jobs, key: JobKey, job: Job, t: Turn): Jobs {
    if WriteOf(job, t).Some? then Written(jobs, key, WriteOf(job, t).value) else jobs
  }

  function TurnRequests(key: JobKey, job: Job, t: Turn): seq<DispatchInput> {
    if Sends(job, t) then [RequestFor(key, job, t.preview.key)] else []
  }

  datatype Work = Work(jobs: Jobs, sent: seq<DispatchInput>)

  /** The plain form: one walk over the jobs from one place to another, with one run over
      each due one. */
  function WorkedOff(jobs: Jobs, order: seq<JobKey>, now: int, turns: JobKey -> Turn, from: nat, end: nat): Work
    requires from <= end <= |order|
    decreases end - from
  {
    if from == end then Work(jobs, [])
    else if !Due(jobs, order[from], now) then WorkedOff(jobs, order, now, turns, from + 1, end)
    else
      var key := order[from];
      var rest := WorkedOff(jobs[key := TurnJob(jobs[key], turns(key))], order, now, turns, from + 1, end);
      Work(rest.jobs, TurnRequests(key, jobs[key], turns(key)) + rest.sent)
  }

  class Runner {
    const store: AutomationStore
    var attempts: Attempts

    constructor (store: AutomationStore, attempts: Attempts)
      ensures this.store == store && this.attempts == attempts
    {
      this.store, this.attempts := store, attempts;
    }

    /** One job, as it was read when the page of due jobs was. */
    method Dispatch(key: JobKey, job: Job, t: Turn) returns (sent: Option<DispatchInput>)
      requires key in store.jobs
      modifies store`jobs
      ensures sent == if Sends(job, t) then Some(RequestFor(key, job, t.preview.key)) else None
      ensures store.jobs == RunOver(old(store.jobs), key, job, t)
    {
      if t.existing.Some? {
        Record(key, t.existing.value);
        return None;
      }
      if t.now - job.dueAt > LATENESS_MS {
        Update(key, Skipped, MissedWindow);
        return None;
      }
      if || t.source.None? || !t.source.value.eligible || t.source.value.status == Completed
         || (t.source.value.subject.kind == StaySubject && t.source.value.endAt <= t.now) {
        Update(key, Skipped, SourceClosed);
        return None;
      }
      if t.source.value.fingerprint != job.sourceFingerprint || t.source.value.version != job.sourceVersion {
        Update(key, Skipped, SourceChanged);
        return None;
      }
      if t.preview.PreviewRefused? {
        Update(key, Blocked, NotReady);
        return None;
      }
      sent := None;
      if t.preview.PreviewReady? {
        if !t.keep {
          return None;
        }
        sent := Some(DispatchInput(job.subject, job.kind, AutomaticKey(key), Automatic, Some(job.sourceVersion),
                                   Some(t.preview.key)));
        if t.sent.Some? {
          Record(key, t.sent.value);
          return;
        }
      }
      if t.found.Some? {
        Record(key, t.found.value);
      } else {
        Update(key, Blocked, NotReady);
      }
    }

    method Record(key: JobKey, attempt: Attempt)
      requires key in store.jobs
      modifies store`jobs
      ensures store.jobs == Written(old(store.jobs), key, TieOf(attempt)) && !Live(store.jobs[key])
    {
      var status := match attempt.outcome
                    case Unclear => OutcomeUnknown
                    case Rejected => DispatchFailed
                    case Handed => Dispatched;
      store.jobs := store.jobs[key := store.jobs[key].(status := status, dispatchId := Some(attempt.id),
                                     reason := if status == OutcomeUnknown then Some(DeliveryUnknown)
                                               else if status == DispatchFailed then Some(DeliveryFailed)
                                               else None)];
    }

    /** Whatever the job has become since it was read. */
    method Update(key: JobKey, status: JobStatus, reason: Reason)
      requires key in store.jobs
      modifies store`jobs
      ensures store.jobs == Written(old(store.jobs), key, Park(status, reason))
    {
      store.jobs := store.jobs[key := store.jobs[key].(status := status, reason := Some(reason))];
    }

    method RecordPage(order: seq<JobKey>, page: seq<nat>)
      requires forall i :: 0 <= i < |page| ==> page[i] < |order| && order[page[i]] in store.jobs
      modifies store`jobs
      ensures store.jobs == TiedAll(old(store.jobs), order, attempts, page)
    {
      var i := 0;
      while i < |page|
        invariant 0 <= i <= |page| && store.jobs == TiedAll(old(store.jobs), order, attempts, page[..i])
        invariant store.jobs.Keys == old(store.jobs).Keys
      {
        var key := order[page[i]];
        if key in attempts {
          Record(key, attempts[key]);
        }
        assert page[..i + 1][..i] == page[..i];
        i := i + 1;
      }
      assert page[..i] == page;
    }

    /** One page: what is left to recover afterwards lies beyond its last job. */
    method RecoverPage(order: seq<JobKey>, cursor: Option<nat>, ghost was: Jobs, ghost rows: seq<nat>)
      returns (page: seq<nat>)
      requires cursor.Some? ==> cursor.value < |order|
      requires RowsTied(was, store.jobs, order, attempts, rows)
      modifies store`jobs
      ensures Places(order, page) && RowsTied(was, store.jobs, order, attempts, rows + page)
      ensures |page| < PAGE ==> store.jobs == Recovered(old(store.jobs), order, attempts, cursor)
      ensures PAGE <= |page| ==>
                && (cursor.Some? ==> cursor.value < page[|page| - 1])
                && Recovered(store.jobs, order, attempts, Some(page[|page| - 1]))
                   == Recovered(old(store.jobs), order, attempts, cursor)
    {
      page := Take(FromCursor(store.jobs, order, cursor));
      PageUntied(store.jobs, order, cursor);
      PageBeyond(store.jobs, order, cursor);
      TiedAfter(was, order, attempts, rows, page);
      RecordPage(order, page);
      if |page| < PAGE {
        LastPage(old(store.jobs), order, attempts, cursor);
      } else {
        RecoveredStep(old(store.jobs), order, attempts, cursor, page);
      }
    }

    /** Ties untied jobs to their attempts, page by page, while the lease is renewed. */
    method RecoverAttempts(order: seq<JobKey>, renewals: nat) returns (recovered: bool, ghost rows: seq<nat>)
      requires Distinct(order)
      modifies store`jobs
      ensures RowsTied(old(store.jobs), store.jobs, order, attempts, rows)
      ensures recovered ==> Recovers(old(store.jobs), store.jobs, order, attempts)
      ensures |order| < renewals ==> recovered
    {
      ghost var was := store.jobs;
      var cursor: Option<nat> := None;
      var q := 0;
      rows := [];
      while q < renewals
        invariant 0 <= q <= renewals
        invariant (cursor.None? <==> q == 0) && (cursor.Some? ==> q <= cursor.value + 1 && cursor.value < |order|)
        invariant Recovered(store.jobs, order, attempts, cursor) == Recovered(was, order, attempts, None)
        invariant RowsTied(was, store.jobs, order, attempts, rows)
      {
        var page := RecoverPage(order, cursor, was, rows);
        rows := rows + page;
        if |page| < PAGE {
          RecoveredMeans(was, order, attempts);
          return true, rows;
        }
        cursor := Some(page[|page| - 1]);
        q := q + 1;
      }
      return false, rows;
    }

    /** The runs over the jobs of a page, as they were read together, until the lease is
        lost. */
    method WorkPage(order: seq<JobKey>, turns: JobKey -> Turn, page: seq<nat>, renewals: nat)
      returns (sent: seq<DispatchInput>, done: nat, ghost states: seq<Work>)
      requires Places(order, page) && forall i :: 0 <= i < |page| ==> order[page[i]] in store.jobs
      modifies store`jobs
      ensures done == if |page| <= renewals then |page| else renewals
      ensures RunsOver(old(store.jobs), order, turns, page, states)
      ensures |states| == done + 1 && states[done] == Work(store.jobs, sent)
    {
      var read := store.jobs;
      sent, done := [], 0;
      states := [Work(read, [])];
      while done < |page| && done < renewals
        invariant 0 <= done <= |page| && done <= renewals && store.jobs.Keys == read.Keys
        invariant RunsOver(read, order, turns, page, states)
        invariant |states| == done + 1 && states[done] == Work(store.jobs, sent)
      {
        var key := order[page[done]];
        var request := Dispatch(key, read[key], turns(key));
        sent := sent + if request.Some? then [request.value] else [];
        states, done := states + [Work(store.jobs, sent)], done + 1;
      }
    }

    /** Works off what is due, page by page beyond the last job of the page before, while
        the lease is renewed: the plain walk, up to where the lease was lost. */
    method WorkOff(order: seq<JobKey>, now: int, turns: JobKey -> Turn, renewals: nat)
      returns (sent: seq<DispatchInput>, finished: bool, ghost reached: nat)
      requires Distinct(order)
      modifies store`jobs
      ensures reached <= |order| && (finished ==> reached == |order|)
      ensures Work(store.jobs, sent) == WorkedOff(old(store.jobs), order, now, turns, 0, reached)
      ensures |order| <= renewals ==> finished
    {
      ghost var was := store.jobs;
      var from, used := 0, 0;
      sent := [];
      while true
        invariant from <= |order| && used <= from && used <= renewals
        invariant Continues(was, store.jobs, sent, order, now, turns, 0, from)
        decreases |order| - from
      {
        var rows := DueFrom(store.jobs, order, now, from);
        var page := if |rows| <= DUE_PAGE then rows else rows[..DUE_PAGE];
        DueFits(store.jobs, order, now, from);
        ghost var before := store.jobs;
        var more, done, states := WorkPage(order, turns, page, renewals - used);
        PageWalked(was, before, states, sent, order, now, turns, from, page, done);
        sent, used, from := sent + more, used + done, PlaceAfter(from, page, done);
        if done < |page| {
          return sent, false, from;
        }
        if |page| < DUE_PAGE {
          NothingDue(store.jobs, order, now, turns, from);
          Chain(was, store.jobs, store.jobs, sent, [], order, now, turns, 0, from, |order|);
          assert sent + [] == sent;
          return sent, true, |order|;
        }
      }
    }
  }

  function AfterTurn(jobs: Jobs, key: JobKey, t: Turn): Jobs
    requires key in jobs
  {
    jobs[key := TurnJob(jobs[key], t)]
  }

  /** What was done up to a place is what the plain walk does up to there. */
  predicate Continues(was: Jobs, jobs: Jobs, sent: seq<DispatchInput>, order: seq<JobKey>, now: int,
                      turns: JobKey -> Turn, from: nat, at: nat)
  {
    from <= at <= |order| && WorkedOff(was, order, now, turns, from, at) == Work(jobs, sent)
  }

  /** The run over one job of a page leads from one state to the next. */
  predicate RunTaken(read: Jobs, order: seq<JobKey>, turns: JobKey -> Turn, p: nat, w: Work, next: Work) {
    p < |order| && order[p] in read
    && next.jobs == RunOver(w.jobs, order[p], read[order[p]], turns(order[p]))
    && next.sent == w.sent + TurnRequests(order[p], read[order[p]], turns(order[p]))
  }

  /** The states between the runs over the first jobs of a page. */
  predicate RunsOver(read: Jobs, order: seq<JobKey>, turns: JobKey -> Turn, page: seq<nat>, states: seq<Work>) {
    && 0 < |states| <= |page| + 1 && states[0] == Work(read, [])
    && forall i :: 0 <= i < |states| - 1 ==> RunTaken(read, order, turns, page[i], states[i], states[i + 1])
  }

  function PlaceAfter(from: nat, page: seq<nat>, i: nat): nat
    requires i <= |page|
  {
    if i == 0 then from else page[i - 1] + 1
  }

  /** The runs over a page are the plain walk up to their last job. */
  lemma {:induction false} PageWalk(read: Jobs, order: seq<JobKey>, now: int, turns: JobKey -> Turn, from: nat,
                                    rows: seq<nat>, page: seq<nat>, states: seq<Work>, i: nat)
    requires Distinct(order) && from <= |order| && rows == DueFrom(read, order, now, from) && page <= rows
    requires RunsOver(read, order, turns, page, states) && i < |states|
    ensures Midway(read, states[i].jobs, states[i].sent, order, now, turns, from, PlaceAfter(from, page, i), rows[i..])
    ensures from + i <= PlaceAfter(from, page, i)
  {
    if i == 0 {
      assert rows[0..] == rows;
    } else {
      var n := i - 1;
      PageWalk(read, order, now, turns, from, rows, page, states, n);
      assert RunTaken(read, order, turns, page[n], states[n], states[n + 1]);
      assert rows[n..] == [page[n]] + rows[i..];
      WalkOn(read, states[n], states[i], order, now, turns, from, PlaceAfter(from, page, n), rows[n..], page[n],
             rows[i..]);
    }
  }

  lemma WalkOn(read: Jobs, w: Work, next: Work, order: seq<JobKey>, now: int, turns: JobKey -> Turn, from: nat,
               at: nat, rest: seq<nat>, p: nat, later: seq<nat>)
    requires Distinct(order) && Midway(read, w.jobs, w.sent, order, now, turns, from, at, rest)
    requires rest == [p] + later && RunTaken(read, order, turns, p, w, next)
    ensures at <= p && Midway(read, next.jobs, next.sent, order, now, turns, from, p + 1, later)
  {
    DueHead(w.jobs, order, now, turns, at, rest);
    TurnStep(read, w.jobs, w.sent, order, now, turns, from, at, p);
    assert rest[1..] == later && w.jobs[order[p]] == read[order[p]];
  }

  /** A page worked off takes the walk on, and what is due beyond it is left. */
  lemma PageWalked(was: Jobs, read: Jobs, states: seq<Work>, sent: seq<DispatchInput>, order: seq<JobKey>, now: int,
                   turns: JobKey -> Turn, from: nat, page: seq<nat>, done: nat)
    requires Distinct(order) && from <= |order| && page <= DueFrom(read, order, now, from)
    requires RunsOver(read, order, turns, page, states) && |states| == done + 1
    requires Continues(was, read, sent, order, now, turns, 0, from)
    ensures var w, at := states[done], PlaceAfter(from, page, done);
            && from + done <= at && Continues(was, w.jobs, sent + w.sent, order, now, turns, 0, at)
            && DueFrom(w.jobs, order, now, at) == DueFrom(read, order, now, from)[done..]
  {
    PageWalk(read, order, now, turns, from, DueFrom(read, order, now, from), page, states, done);
    Chain(was, read, states[done].jobs, sent, states[done].sent, order, now, turns, 0, from,
          PlaceAfter(from, page, done));
  }

  /** A page worked off up to a place: the rest is still to do, as it was read. */
  predicate Midway(read: Jobs, jobs: Jobs, sent: seq<DispatchInput>, order: seq<JobKey>, now: int,
                   turns: JobKey -> Turn, from: nat, at: nat, rest: seq<nat>) {
    && Continues(read, jobs, sent, order, now, turns, from, at)
    && DueFrom(jobs, order, now, at) == rest && SameFrom(read, jobs, order, at)
  }

  predicate SameFrom(a: Jobs, b: Jobs, order: seq<JobKey>, at: nat) {
    forall p :: at <= p < |order| ==>
      (order[p] in a <==> order[p] in b) && (order[p] in a ==> a[order[p]] == b[order[p]])
  }

  lemma DueSkip(jobs: Jobs, order: seq<JobKey>, now: int, turns: JobKey -> Turn, at: nat, end: nat)
    requires at < end <= |order| && !Due(jobs, order[at], now)
    ensures DueFrom(jobs, order, now, at) == DueFrom(jobs, order, now, at + 1)
    ensures WorkedOff(jobs, order, now, turns, at, end) == WorkedOff(jobs, order, now, turns, at + 1, end)
  {
  }

  lemma DueHere(jobs: Jobs, order: seq<JobKey>, now: int, at: nat)
    requires at < |order| && Due(jobs, order[at], now)
    ensures DueFrom(jobs, order, now, at) == [at] + DueFrom(jobs, order, now, at + 1)
  {
  }

  /** Nothing happens before the first due job. */
  lemma {:induction false} DueHead(jobs: Jobs, order: seq<JobKey>, now: int, turns: JobKey -> Turn, at: nat,
                                   rows: seq<nat>)
    requires at <= |order| && rows == DueFrom(jobs, order, now, at) && rows != []
    ensures at <= rows[0] && WorkedOff(jobs, order, now, turns, at, rows[0]) == Work(jobs, [])
    ensures DueFrom(jobs, order, now, rows[0] + 1) == rows[1..]
    decreases |order| - at
  {
    if Due(jobs, order[at], now) {
      DueHere(jobs, order, now, at);
    } else {
      DueSkip(jobs, order, now, turns, at, rows[0]);
      DueHead(jobs, order, now, turns, at + 1, rows);
    }
  }

  lemma {:induction false} NothingDue(jobs: Jobs, order: seq<JobKey>, now: int, turns: JobKey -> Turn, at: nat)
    requires at <= |order| && DueFrom(jobs, order, now, at) == []
    ensures WorkedOff(jobs, order, now, turns, at, |order|) == Work(jobs, [])
    decreases |order| - at
  {
    if at < |order| {
      NothingDue(jobs, order, now, turns, at + 1);
    }
  }

  lemma {:induction false} DueFits(jobs: Jobs, order: seq<JobKey>, now: int, from: nat)
    requires from <= |order|
    ensures from + |DueFrom(jobs, order, now, from)| <= |order|
    decreases |order| - from
  {
    if from < |order| {
      DueFits(jobs, order, now, from + 1);
    }
  }

  lemma {:induction false} SameDue(a: Jobs, b: Jobs, order: seq<JobKey>, now: int, at: nat)
    requires at <= |order| && SameFrom(a, b, order, at)
    ensures DueFrom(a, order, now, at) == DueFrom(b, order, now, at)
    decreases |order| - at
  {
    if at < |order| {
      SameDue(a, b, order, now, at + 1);
    }
  }

  /** Two walks one after the other are one walk. */
  lemma {:induction false} Chain(was: Jobs, between: Jobs, jobs: Jobs, sent: seq<DispatchInput>,
                                 more: seq<DispatchInput>, order: seq<JobKey>, now: int, turns: JobKey -> Turn,
                                 from: nat, at: nat, end: nat)
    requires Continues(was, between, sent, order, now, turns, from, at)
    requires Continues(between, jobs, more, order, now, turns, at, end)
    ensures Continues(was, jobs, sent + more, order, now, turns, from, end)
    decreases at - from
  {
    if from == at {
      assert sent + more == more;
    } else if !Due(was, order[from], now) {
      Chain(was, between, jobs, sent, more, order, now, turns, from + 1, at, end);
    } else {
      var key := order[from];
      var next, requests := AfterTurn(was, key, turns(key)), TurnRequests(key, was[key], turns(key));
      var later := WorkedOff(next, order, now, turns, from + 1, at).sent;
      Chain(next, between, jobs, later, more, order, now, turns, from + 1, at, end);
      assert requests + (later + more) == sent + more;
    }
  }

  lemma OneTurn(jobs: Jobs, order: seq<JobKey>, now: int, turns: JobKey -> Turn, p: nat)
    requires p < |order| && Due(jobs, order[p], now)
    ensures var key := order[p];
            Continues(jobs, AfterTurn(jobs, key, turns(key)), TurnRequests(key, jobs[key], turns(key)), order, now,
                      turns, p, p + 1)
  {
    var key := order[p];
    var requests := TurnRequests(key, jobs[key], turns(key));
    assert requests + [] == requests;
  }

  /** One run takes the walk past its job. */
  lemma TurnStep(was: Jobs, jobs: Jobs, sent: seq<DispatchInput>, order: seq<JobKey>, now: int,
                 turns: JobKey -> Turn, from: nat, at: nat, p: nat)
    requires Distinct(order) && at <= p < |order| && Due(jobs, order[p], now)
    requires Continues(was, jobs, sent, order, now, turns, from, at)
    requires Continues(jobs, jobs, [], order, now, turns, at, p)
    ensures var key := order[p];
            var after := AfterTurn(jobs, key, turns(key));
            && Continues(was, after, sent + TurnRequests(key, jobs[key], turns(key)), order, now, turns, from, p + 1)
            && DueFrom(after, order, now, p + 1) == DueFrom(jobs, order, now, p + 1)
            && SameFrom(jobs, after, order, p + 1)
  {
    var key := order[p];
    var after, requests := AfterTurn(jobs, key, turns(key)), TurnRequests(key, jobs[key], turns(key));
    Chain(was, jobs, jobs, sent, [], order, now, turns, from, at, p);
    assert sent + [] == sent;
    OneTurn(jobs, order, now, turns, p);
    Chain(was, jobs, after, sent, requests, order, now, turns, from, p, p + 1);
    SameDue(jobs, after, order, now, p + 1);
  }

  /** Exactly the reached jobs that were attempted are tied; no job is lost. */
  ghost predicate Recovers(was: Jobs, jobs: Jobs, order: seq<JobKey>, attempts: Attempts) {
    forall key :: key in was ==> key in jobs && jobs[key] == RecoveredJob(was, order, attempts, key)
  }

  predicate Distinct(order: seq<JobKey>) {
    forall i, j :: 0 <= i < j < |order| ==> order[i] != order[j]
  }

  /** The whole recovery from a cursor on. */
  function Recovered(jobs: Jobs, order: seq<JobKey>, attempts: Attempts, cursor: Option<nat>): Jobs
    requires cursor.Some? ==> cursor.value < |order|
    decreases if cursor.Some? then |order| - cursor.value else |order| + 1
  {
    var page := Take(FromCursor(jobs, order, cursor));
    var after := TiedAll(jobs, order, attempts, page);
    if |page| < PAGE then after
    else
      PageBeyond(jobs, order, cursor);
      Recovered(after, order, attempts, Some(page[|page| - 1]))
  }

  lemma {:induction false} UntiedFromMeans(jobs: Jobs, order: seq<JobKey>, from: nat)
    requires from <= |order|
    ensures forall p :: p in UntiedFrom(jobs, order, from) <==> from <= p < |order| && Untied(jobs, order[p])
    ensures forall i, j :: 0 <= i < j < |UntiedFrom(jobs, order, from)| ==>
              UntiedFrom(jobs, order, from)[i] < UntiedFrom(jobs, order, from)[j]
    decreases |order| - from
  {
    if from < |order| {
      UntiedFromMeans(jobs, order, from + 1);
    }
  }

  lemma PageUntied(jobs: Jobs, order: seq<JobKey>, cursor: Option<nat>)
    requires cursor.Some? ==> cursor.value < |order|
    ensures forall i :: 0 <= i < |FromCursor(jobs, order, cursor)| ==>
              Untied(jobs, order[FromCursor(jobs, order, cursor)[i]])
  {
    var from := if cursor.Some? then cursor.value else 0;
    UntiedFromMeans(jobs, order, from);
    var all := UntiedFrom(jobs, order, from);
    forall i | 0 <= i < |all| ensures Untied(jobs, order[all[i]]) {
      assert all[i] in all;
    }
  }

  /** The pages move on. */
  lemma PageBeyond(jobs: Jobs, order: seq<JobKey>, cursor: Option<nat>)
    requires cursor.Some? ==> cursor.value < |order|
    ensures cursor.Some? ==> forall i :: 0 <= i < |FromCursor(jobs, order, cursor)| ==>
              cursor.value < FromCursor(jobs, order, cursor)[i]
  {
    if cursor.Some? {
      UntiedFromMeans(jobs, order, cursor.value);
    }
  }

  lemma {:induction false} TiedAllKeys(jobs: Jobs, order: seq<JobKey>, attempts: Attempts, page: seq<nat>)
    requires forall i :: 0 <= i < |page| ==> page[i] < |order|
    ensures TiedAll(jobs, order, attempts, page).Keys == jobs.Keys
  {
    if page != [] {
      TiedAllKeys(jobs, order, attempts, page[..|page| - 1]);
    }
  }

  predicate Places(order: seq<JobKey>, page: seq<nat>) {
    forall i :: 0 <= i < |page| ==> page[i] < |order|
  }

  /** These places, and no others, were tied in turn. */
  predicate RowsTied(was: Jobs, jobs: Jobs, order: seq<JobKey>, attempts: Attempts, rows: seq<nat>) {
    Places(order, rows) && jobs == TiedAll(was, order, attempts, rows)
  }

  lemma {:induction false} TiedAfter(jobs: Jobs, order: seq<JobKey>, attempts: Attempts, first: seq<nat>,
                                     page: seq<nat>)
    requires Places(order, first) && Places(order, page)
    ensures TiedAll(TiedAll(jobs, order, attempts, first), order, attempts, page)
            == TiedAll(jobs, order, attempts, first + page)
  {
    var all := first + page;
    if page == [] {
      assert all == first;
    } else {
      var n := |page| - 1;
      assert all[..|all| - 1] == first + page[..n];
      TiedAfter(jobs, order, attempts, first, page[..n]);
    }
  }

  function TiedJob(jobs: Jobs, attempts: Attempts, key: JobKey): Job
    requires key in jobs
  {
    if key in attempts then WrittenJob(jobs[key], TieOf(attempts[key])) else jobs[key]
  }

  predicate OnPage(order: seq<JobKey>, page: seq<nat>, key: JobKey)
    requires forall i :: 0 <= i < |page| ==> page[i] < |order|
  {
    exists i :: 0 <= i < |page| && order[page[i]] == key
  }

  lemma {:induction false} TiedAllAt(jobs: Jobs, order: seq<JobKey>, attempts: Attempts, page: seq<nat>, key: JobKey)
    requires key in jobs && forall i :: 0 <= i < |page| ==> page[i] < |order|
    ensures key in TiedAll(jobs, order, attempts, page)
    ensures TiedAll(jobs, order, attempts, page)[key]
            == if OnPage(order, page, key) then TiedJob(jobs, attempts, key) else jobs[key]
  {
    if page != [] {
      var n := |page| - 1;
      TiedAllAt(jobs, order, attempts, page[..n], key);
      assert OnPage(order, page, key) <==> OnPage(order, page[..n], key) || order[page[n]] == key;
    }
  }

  // ---------------------------------------------------------------- what is recovered, and what is missed

  /** The rows that a full page leaves to the queries after it. */
  function Onward(rows: seq<nat>, order: seq<JobKey>, attempts: Attempts): seq<nat>
    requires PAGE <= |rows| && forall i :: 0 <= i < |rows| ==> rows[i] < |order|
  {
    if order[rows[PAGE - 1]] in attempts && rows[PAGE..] != [] then rows[PAGE..][1..] else rows[PAGE..]
  }

  /** The places reached from these untied ones: a full page whose last job was tied
      costs the job after it. */
  function Reached(rows: seq<nat>, order: seq<JobKey>, attempts: Attempts): (reached: seq<nat>)
    requires forall i :: 0 <= i < |rows| ==> rows[i] < |order|
    ensures forall i :: 0 <= i < |reached| ==> reached[i] < |order|
    decreases |rows|
  {
    if |rows| < PAGE then rows else rows[..PAGE] + Reached(Onward(rows, order, attempts), order, attempts)
  }

  function RecoveredJob(jobs: Jobs, order: seq<JobKey>, attempts: Attempts, key: JobKey): Job
    requires key in jobs
  {
    if OnPage(order, ReachedFrom(jobs, order, attempts), key) then TiedJob(jobs, attempts, key) else jobs[key]
  }

  function ReachedFrom(jobs: Jobs, order: seq<JobKey>, attempts: Attempts): (reached: seq<nat>)
    ensures forall i :: 0 <= i < |reached| ==> reached[i] < |order|
  {
    Reached(UntiedFrom(jobs, order, 0), order, attempts)
  }

  lemma UntiedHead(jobs: Jobs, order: seq<JobKey>, from: nat)
    requires from < |order|
    ensures UntiedFrom(jobs, order, from)
            == if Untied(jobs, order[from]) then [from] + UntiedFrom(jobs, order, from + 1)
               else UntiedFrom(jobs, order, from + 1)
  {
  }

  lemma TailOfTail(first: nat, tail: seq<nat>, seen: seq<nat>, rest: seq<nat>)
    requires seen != [] && [first] + tail == seen + rest
    ensures seen[0] == first && tail == seen[1..] + rest
  {
    assert (seen + rest)[0] == seen[0] && (seen + rest)[1..] == seen[1..] + rest;
    assert ([first] + tail)[0] == first && ([first] + tail)[1..] == tail;
  }

  /** Beyond the last of its first members, the list of untied places is what is left of it. */
  lemma {:induction false} UntiedTail(jobs: Jobs, order: seq<JobKey>, from: nat, seen: seq<nat>, rest: seq<nat>)
    requires from <= |order| && UntiedFrom(jobs, order, from) == seen + rest && seen != []
    ensures seen[|seen| - 1] < |order| && UntiedFrom(jobs, order, seen[|seen| - 1] + 1) == rest
    decreases |order| - from
  {
    UntiedHead(jobs, order, from);
    var tail := UntiedFrom(jobs, order, from + 1);
    if !Untied(jobs, order[from]) {
      UntiedTail(jobs, order, from + 1, seen, rest);
    } else {
      TailOfTail(from, tail, seen, rest);
      if |seen| > 1 {
        UntiedTail(jobs, order, from + 1, seen[1..], rest);
      } else {
        assert seen[1..] + rest == rest;
      }
    }
  }

  lemma {:induction false} UntiedUnchanged(jobs: Jobs, after: Jobs, order: seq<JobKey>, from: nat)
    requires from <= |order| && forall p :: from <= p < |order| ==> Untied(after, order[p]) == Untied(jobs, order[p])
    ensures UntiedFrom(after, order, from) == UntiedFrom(jobs, order, from)
    decreases |order| - from
  {
    if from < |order| {
      UntiedUnchanged(jobs, after, order, from + 1);
    }
  }

  /** Jobs beyond a page are as they were. */
  lemma BeyondPage(jobs: Jobs, order: seq<JobKey>, attempts: Attempts, page: seq<nat>, last: nat)
    requires Distinct(order) && last < |order|
    requires forall i :: 0 <= i < |page| ==> page[i] <= last
    ensures UntiedFrom(TiedAll(jobs, order, attempts, page), order, last + 1) == UntiedFrom(jobs, order, last + 1)
  {
    var after := TiedAll(jobs, order, attempts, page);
    TiedAllKeys(jobs, order, attempts, page);
    forall p | last + 1 <= p < |order| ensures Untied(after, order[p]) == Untied(jobs, order[p]) {
      if order[p] in jobs {
        TiedAllAt(jobs, order, attempts, page, order[p]);
        assert !OnPage(order, page, order[p]);
      }
    }
    UntiedUnchanged(jobs, after, order, last + 1);
  }

  /** A job on a page is tied now if there is an attempt. */
  lemma OnItsPage(jobs: Jobs, order: seq<JobKey>, attempts: Attempts, page: seq<nat>, i: nat)
    requires i < |page| && forall k :: 0 <= k < |page| ==> page[k] < |order|
    requires Untied(jobs, order[page[i]])
    ensures Untied(TiedAll(jobs, order, attempts, page), order[page[i]]) <==> order[page[i]] !in attempts
  {
    TiedAllAt(jobs, order, attempts, page, order[page[i]]);
    assert OnPage(order, page, order[page[i]]);
  }

  /** A query from a cursor returns what lies beyond it if the cursor is still untied,
      and loses the first of it otherwise. */
  lemma FirstOrNot(jobs: Jobs, order: seq<JobKey>, cursor: nat)
    requires cursor < |order|
    ensures var beyond := UntiedFrom(jobs, order, cursor + 1);
            FromCursor(jobs, order, Some(cursor))
            == if !Untied(jobs, order[cursor]) && beyond != [] then beyond[1..] else beyond
  {
    var beyond := UntiedFrom(jobs, order, cursor + 1);
    if Untied(jobs, order[cursor]) {
      assert UntiedFrom(jobs, order, cursor) == [cursor] + beyond;
    } else {
      assert UntiedFrom(jobs, order, cursor) == beyond;
    }
  }

  lemma PageUpToLast(jobs: Jobs, order: seq<JobKey>, from: nat)
    requires from <= |order| && PAGE <= |UntiedFrom(jobs, order, from)|
    ensures var rows := UntiedFrom(jobs, order, from);
            Untied(jobs, order[rows[PAGE - 1]]) && forall i :: 0 <= i < PAGE ==> rows[i] <= rows[PAGE - 1]
  {
    UntiedFromMeans(jobs, order, from);
    var rows := UntiedFrom(jobs, order, from);
    assert rows[PAGE - 1] in rows;
  }

  /** The state of the last job of a full page, and what lies beyond it. */
  lemma AfterPage(jobs: Jobs, order: seq<JobKey>, attempts: Attempts, from: nat)
    requires Distinct(order) && from <= |order| && PAGE <= |UntiedFrom(jobs, order, from)|
    ensures var rows := UntiedFrom(jobs, order, from);
            var after, last := TiedAll(jobs, order, attempts, rows[..PAGE]), rows[PAGE - 1];
            && UntiedFrom(after, order, last + 1) == rows[PAGE..]
            && (Untied(after, order[last]) <==> order[last] !in attempts)
  {
    var rows := UntiedFrom(jobs, order, from);
    var page := rows[..PAGE];
    PageUpToLast(jobs, order, from);
    assert page[PAGE - 1] == rows[PAGE - 1];
    BeyondPage(jobs, order, attempts, page, rows[PAGE - 1]);
    OnItsPage(jobs, order, attempts, page, PAGE - 1);
    assert rows == page + rows[PAGE..];
    UntiedTail(jobs, order, from, page, rows[PAGE..]);
  }

  lemma CursorOnward(after: Jobs, order: seq<JobKey>, attempts: Attempts, rows: seq<nat>)
    requires PAGE <= |rows| && forall k :: 0 <= k < |rows| ==> rows[k] < |order|
    requires UntiedFrom(after, order, rows[PAGE - 1] + 1) == rows[PAGE..]
    requires Untied(after, order[rows[PAGE - 1]]) <==> order[rows[PAGE - 1]] !in attempts
    ensures FromCursor(after, order, Some(rows[PAGE - 1])) == Onward(rows, order, attempts)
  {
    FirstOrNot(after, order, rows[PAGE - 1]);
  }

  /** What the next query finds after a full page. */
  lemma NextRows(jobs: Jobs, order: seq<JobKey>, attempts: Attempts, from: nat)
    requires Distinct(order) && from <= |order| && PAGE <= |UntiedFrom(jobs, order, from)|
    ensures var rows := UntiedFrom(jobs, order, from);
            FromCursor(TiedAll(jobs, order, attempts, rows[..PAGE]), order, Some(rows[PAGE - 1]))
            == Onward(rows, order, attempts)
  {
    var rows := UntiedFrom(jobs, order, from);
    AfterPage(jobs, order, attempts, from);
    CursorOnward(TiedAll(jobs, order, attempts, rows[..PAGE]), order, attempts, rows);
  }

  lemma OnPages(order: seq<JobKey>, first: seq<nat>, second: seq<nat>, key: JobKey)
    requires forall i :: 0 <= i < |first| ==> first[i] < |order|
    requires forall i :: 0 <= i < |second| ==> second[i] < |order|
    ensures OnPage(order, first + second, key) <==> OnPage(order, first, key) || OnPage(order, second, key)
  {
    var both := first + second;
    if i :| 0 <= i < |first| && order[first[i]] == key {
      assert order[both[i]] == key;
    }
    if i :| 0 <= i < |second| && order[second[i]] == key {
      assert order[both[|first| + i]] == key;
    }
  }

  /** Where the rows after a full page begin. */
  lemma NextStart(jobs: Jobs, after: Jobs, order: seq<JobKey>, attempts: Attempts, from: nat) returns (start: nat)
    requires Distinct(order) && from <= |order| && PAGE <= |UntiedFrom(jobs, order, from)|
    requires after == TiedAll(jobs, order, attempts, UntiedFrom(jobs, order, from)[..PAGE])
    ensures start <= |order|
    ensures UntiedFrom(after, order, start) == Onward(UntiedFrom(jobs, order, from), order, attempts)
  {
    var last := UntiedFrom(jobs, order, from)[PAGE - 1];
    NextRows(jobs, order, attempts, from);
    var found := UntiedFrom(after, order, last);
    if found == [] {
      start := |order|;
    } else {
      assert found == found[..1] + found[1..];
      UntiedTail(after, order, last, found[..1], found[1..]);
      start := found[0] + 1;
    }
  }

  lemma TiedTwice(jobs: Jobs, after: Jobs, attempts: Attempts, key: JobKey)
    requires key in jobs && key in after
    requires after[key] == jobs[key] || after[key] == TiedJob(jobs, attempts, key)
    ensures TiedJob(after, attempts, key) == TiedJob(jobs, attempts, key)
  {
  }

  lemma RecoveredStep(jobs: Jobs, order: seq<JobKey>, attempts: Attempts, cursor: Option<nat>, page: seq<nat>)
    requires cursor.Some? ==> cursor.value < |order|
    requires page == Take(FromCursor(jobs, order, cursor)) && PAGE <= |page|
    ensures Recovered(jobs, order, attempts, cursor)
            == Recovered(TiedAll(jobs, order, attempts, page), order, attempts, Some(page[|page| - 1]))
  {
  }

  lemma LastPage(jobs: Jobs, order: seq<JobKey>, attempts: Attempts, cursor: Option<nat>)
    requires cursor.Some? ==> cursor.value < |order|
    requires |Take(FromCursor(jobs, order, cursor))| < PAGE
    ensures Recovered(jobs, order, attempts, cursor)
            == TiedAll(jobs, order, attempts, Take(FromCursor(jobs, order, cursor)))
  {
  }

  lemma ReachedStep(rows: seq<nat>, order: seq<JobKey>, attempts: Attempts)
    requires PAGE <= |rows| && forall i :: 0 <= i < |rows| ==> rows[i] < |order|
    ensures Reached(rows, order, attempts) == rows[..PAGE] + Reached(Onward(rows, order, attempts), order, attempts)
  {
  }

  /** From a cursor that leaves these untied rows, exactly the reached ones are tied. */
  lemma {:induction false} RecoveredFrom(jobs: Jobs, order: seq<JobKey>, attempts: Attempts, cursor: Option<nat>,
                                         from: nat, key: JobKey)
    requires Distinct(order) && (cursor.Some? ==> cursor.value < |order|) && from <= |order|
    requires FromCursor(jobs, order, cursor) == UntiedFrom(jobs, order, from) && key in jobs
    ensures var reached := Reached(UntiedFrom(jobs, order, from), order, attempts);
            && key in Recovered(jobs, order, attempts, cursor)
            && Recovered(jobs, order, attempts, cursor)[key]
               == if OnPage(order, reached, key) then TiedJob(jobs, attempts, key) else jobs[key]
    decreases if cursor.Some? then |order| - cursor.value else |order| + 1
  {
    var rows := UntiedFrom(jobs, order, from);
    PageBeyond(jobs, order, cursor);
    if |rows| < PAGE {
      TiedAllAt(jobs, order, attempts, rows, key);
    } else {
      var page, last := rows[..PAGE], rows[PAGE - 1];
      var after := TiedAll(jobs, order, attempts, page);
      TiedAllAt(jobs, order, attempts, page, key);
      NextRows(jobs, order, attempts, from);
      var start := NextStart(jobs, after, order, attempts, from);
      RecoveredFrom(after, order, attempts, Some(last), start, key);
      RecoveredStep(jobs, order, attempts, cursor, page);
      ReachedStep(rows, order, attempts);
      OnPages(order, page, Reached(Onward(rows, order, attempts), order, attempts), key);
      TiedTwice(jobs, after, attempts, key);
    }
  }

  lemma RecoveredMeans(jobs: Jobs, order: seq<JobKey>, attempts: Attempts)
    requires Distinct(order)
    ensures Recovers(jobs, Recovered(jobs, order, attempts, None), order, attempts)
  {
    forall key | key in jobs
      ensures key in Recovered(jobs, order, attempts, None)
      ensures Recovered(jobs, order, attempts, None)[key] == RecoveredJob(jobs, order, attempts, key)
    {
      RecoveredFrom(jobs, order, attempts, None, 0, key);
    }
  }

  /** Of at most one page of untied jobs none is missed: each that was attempted is tied
      to its attempt. */
  lemma OnePageMissesNone(jobs: Jobs, order: seq<JobKey>, attempts: Attempts, p: nat)
    requires p < |order| && Untied(jobs, order[p]) && |UntiedFrom(jobs, order, 0)| <= PAGE
    ensures RecoveredJob(jobs, order, attempts, order[p]) == TiedJob(jobs, attempts, order[p])
  {
    var rows := UntiedFrom(jobs, order, 0);
    UntiedFromMeans(jobs, order, 0);
    if |rows| == PAGE {
      ReachedStep(rows, order, attempts);
      assert rows[..PAGE] == rows;
    }
    var i :| 0 <= i < |rows| && rows[i] == p;
    assert order[Reached(rows, order, attempts)[i]] == order[p];
  }

  lemma FirstPageReached(rows: seq<nat>, order: seq<JobKey>, attempts: Attempts)
    requires PAGE <= |rows| && forall k :: 0 <= k < |rows| ==> rows[k] < |order|
    ensures forall k :: 0 <= k < PAGE ==> rows[k] in Reached(rows, order, attempts)
  {
    ReachedStep(rows, order, attempts);
    forall k | 0 <= k < PAGE ensures rows[k] in Reached(rows, order, attempts) {
      assert Reached(rows, order, attempts)[k] == rows[k];
    }
  }

  lemma OnwardIsTail(rows: seq<nat>, order: seq<JobKey>, attempts: Attempts)
    requires PAGE <= |rows| && forall k :: 0 <= k < |rows| ==> rows[k] < |order|
    ensures var on := Onward(rows, order, attempts);
            var gone := |rows| - |on|;
            && (gone == PAGE || (gone == PAGE + 1 && order[rows[PAGE - 1]] in attempts))
            && forall i :: gone <= i < |rows| ==> on[i - gone] == rows[i]
  {
  }

  /** A job is only ever missed right behind one that was reached and tied. */
  lemma {:induction false} MissedOnlyBehindTied(rows: seq<nat>, order: seq<JobKey>, attempts: Attempts, i: nat)
    requires i < |rows| && forall k :: 0 <= k < |rows| ==> rows[k] < |order|
    requires rows[i] !in Reached(rows, order, attempts)
    ensures PAGE <= i && rows[i - 1] in Reached(rows, order, attempts) && order[rows[i - 1]] in attempts
    decreases |rows|
  {
    if |rows| >= PAGE {
      var on := Onward(rows, order, attempts);
      var gone := |rows| - |on|;
      FirstPageReached(rows, order, attempts);
      OnwardIsTail(rows, order, attempts);
      if gone <= i {
        OnwardReached(rows, order, attempts);
        MissedOnlyBehindTied(on, order, attempts, i - gone);
      }
    }
  }

  lemma OnwardReached(rows: seq<nat>, order: seq<JobKey>, attempts: Attempts)
    requires PAGE <= |rows| && forall k :: 0 <= k < |rows| ==> rows[k] < |order|
    ensures forall p :: p in Reached(Onward(rows, order, attempts), order, attempts) ==>
              p in Reached(rows, order, attempts)
  {
    ReachedStep(rows, order, attempts);
  }

  lemma SkippedIsNotReached(rows: seq<nat>, order: seq<JobKey>, attempts: Attempts)
    requires PAGE < |rows| && (forall k :: 0 <= k < |rows| ==> rows[k] < |order|)
    requires forall i, j :: 0 <= i < j < |rows| ==> rows[i] < rows[j]
    requires order[rows[PAGE - 1]] in attempts
    ensures rows[PAGE] !in Reached(rows, order, attempts)
  {
    var on := Onward(rows, order, attempts);
    ReachedStep(rows, order, attempts);
    ReachedAreRows(on, order, attempts);
    forall j | 0 <= j < |on| ensures on[j] != rows[PAGE] {
      assert on[j] == rows[PAGE + 1 + j];
    }
  }

  /** And it happens: when the last job of a full page is tied, the query after it skips
      the next untied job instead, attempted or not. */
  lemma FullPageCostsTheNext(jobs: Jobs, order: seq<JobKey>, attempts: Attempts)
    requires Distinct(order) && PAGE < |UntiedFrom(jobs, order, 0)|
    requires order[UntiedFrom(jobs, order, 0)[PAGE - 1]] in attempts
    ensures var missed := order[UntiedFrom(jobs, order, 0)[PAGE]];
            missed in jobs && RecoveredJob(jobs, order, attempts, missed) == jobs[missed]
  {
    var rows := UntiedFrom(jobs, order, 0);
    UntiedFromMeans(jobs, order, 0);
    assert rows[PAGE] in rows;
    SkippedIsNotReached(rows, order, attempts);
    OnlyItself(order, Reached(rows, order, attempts), rows[PAGE]);
  }

  lemma OnlyItself(order: seq<JobKey>, page: seq<nat>, p: nat)
    requires Distinct(order) && p < |order| && p !in page && forall i :: 0 <= i < |page| ==> page[i] < |order|
    ensures !OnPage(order, page, order[p])
  {
    forall i | 0 <= i < |page| ensures order[page[i]] != order[p] {
      assert page[i] in page;
    }
  }

  /** Behind no full page whose last job was attempted is another attempted job. */
  predicate NothingMissed(rows: seq<nat>, order: seq<JobKey>, attempts: Attempts)
    requires forall k :: 0 <= k < |rows| ==> rows[k] < |order|
    decreases |rows|
  {
    |rows| < PAGE
    || (&& (PAGE < |rows| && order[rows[PAGE - 1]] in attempts ==> order[rows[PAGE]] !in attempts)
        && NothingMissed(Onward(rows, order, attempts), order, attempts))
  }

  predicate AllReached(rows: seq<nat>, order: seq<JobKey>, attempts: Attempts)
    requires forall k :: 0 <= k < |rows| ==> rows[k] < |order|
  {
    forall i :: 0 <= i < |rows| && order[rows[i]] in attempts ==> rows[i] in Reached(rows, order, attempts)
  }

  lemma LaterReached(rows: seq<nat>, order: seq<JobKey>, attempts: Attempts, i: nat)
    requires PAGE <= |rows| && (forall k :: 0 <= k < |rows| ==> rows[k] < |order|)
    requires forall j, k :: 0 <= j < k < |rows| ==> rows[j] < rows[k]
    requires PAGE <= i < |rows|
    ensures rows[i] in Reached(rows, order, attempts)
            <==> rows[i] in Reached(Onward(rows, order, attempts), order, attempts)
  {
    ReachedStep(rows, order, attempts);
    forall k | 0 <= k < PAGE ensures rows[..PAGE][k] != rows[i] {
    }
  }

  lemma {:induction false} AllReachedIff(rows: seq<nat>, order: seq<JobKey>, attempts: Attempts)
    requires forall k :: 0 <= k < |rows| ==> rows[k] < |order|
    requires forall j, k :: 0 <= j < k < |rows| ==> rows[j] < rows[k]
    ensures AllReached(rows, order, attempts) <==> NothingMissed(rows, order, attempts)
    decreases |rows|
  {
    if |rows| >= PAGE {
      var on := Onward(rows, order, attempts);
      var gone := |rows| - |on|;
      OnwardIsTail(rows, order, attempts);
      FirstPageReached(rows, order, attempts);
      AllReachedIff(on, order, attempts);
      forall i | PAGE <= i < |rows|
        ensures rows[i] in Reached(rows, order, attempts) <==> rows[i] in Reached(on, order, attempts)
      {
        LaterReached(rows, order, attempts, i);
      }
      if gone == PAGE + 1 {
        SkippedIsNotReached(rows, order, attempts);
      }
      OnwardAllReached(rows, order, attempts);
    }
  }

  lemma OnwardAllReached(rows: seq<nat>, order: seq<JobKey>, attempts: Attempts)
    requires PAGE <= |rows| && (forall k :: 0 <= k < |rows| ==> rows[k] < |order|)
    ensures var on := Onward(rows, order, attempts);
            AllReached(on, order, attempts) <==>
              forall i :: |rows| - |on| <= i < |rows| && order[rows[i]] in attempts ==>
                rows[i] in Reached(on, order, attempts)
  {
    var on := Onward(rows, order, attempts);
    var gone := |rows| - |on|;
    OnwardIsTail(rows, order, attempts);
    forall j | 0 <= j < |on| ensures on[j] == rows[j + gone] {
      var i := j + gone;
      assert on[i - gone] == rows[i];
    }
  }

  lemma ReachedTies(jobs: Jobs, after: Jobs, order: seq<JobKey>, attempts: Attempts, p: nat)
    requires Distinct(order) && p < |order| && Untied(jobs, order[p]) && order[p] in attempts
    requires Recovers(jobs, after, order, attempts)
    ensures Untied(after, order[p]) <==> p !in Reached(UntiedFrom(jobs, order, 0), order, attempts)
  {
    var reached := Reached(UntiedFrom(jobs, order, 0), order, attempts);
    if p in reached {
      var i :| 0 <= i < |reached| && reached[i] == p;
      assert OnPage(order, reached, order[p]);
    } else {
      OnlyItself(order, reached, p);
    }
  }

  /** Recovery ties every attempted job exactly when nothing was missed behind a page. */
  lemma RecoversAllIff(jobs: Jobs, after: Jobs, order: seq<JobKey>, attempts: Attempts)
    requires Distinct(order) && Recovers(jobs, after, order, attempts)
    ensures (forall p :: 0 <= p < |order| && Untied(jobs, order[p]) && order[p] in attempts ==>
               !Untied(after, order[p]))
            <==> NothingMissed(UntiedFrom(jobs, order, 0), order, attempts)
  {
    var rows := UntiedFrom(jobs, order, 0);
    var reached := Reached(rows, order, attempts);
    UntiedFromMeans(jobs, order, 0);
    AllReachedIff(rows, order, attempts);
    forall p | 0 <= p < |order| && Untied(jobs, order[p]) && order[p] in attempts
      ensures Untied(after, order[p]) <==> p !in reached
    {
      ReachedTies(jobs, after, order, attempts, p);
    }
    forall i | 0 <= i < |rows| ensures Untied(jobs, order[rows[i]]) {
      assert rows[i] in rows;
    }
  }

  lemma {:induction false} ReachedAreRows(rows: seq<nat>, order: seq<JobKey>, attempts: Attempts)
    requires forall i :: 0 <= i < |rows| ==> rows[i] < |order|
    ensures forall p :: p in Reached(rows, order, attempts) ==> p in rows
    decreases |rows|
  {
    if |rows| >= PAGE {
      ReachedStep(rows, order, attempts);
      ReachedAreRows(Onward(rows, order, attempts), order, attempts);
    }
  }

  // ---------------------------------------------------------------- what a whole pass does

  predicate DueBetween(jobs: Jobs, order: seq<JobKey>, now: int, from: nat, end: nat, key: JobKey)
    requires end <= |order|
  {
    exists p :: from <= p < end && order[p] == key && Due(jobs, key, now)
  }

  /** A pass runs once over exactly the jobs that were due when it began. */
  lemma {:induction false} PassRunsOnce(jobs: Jobs, order: seq<JobKey>, now: int, turns: JobKey -> Turn, from: nat,
                                        end: nat, key: JobKey)
    requires Distinct(order) && from <= end <= |order| && key in jobs
    ensures var after := WorkedOff(jobs, order, now, turns, from, end).jobs;
            && after.Keys == jobs.Keys
            && after[key] == if DueBetween(jobs, order, now, from, end, key) then TurnJob(jobs[key], turns(key))
                             else jobs[key]
    decreases end - from
  {
    if from < end {
      var first := order[from];
      if Due(jobs, first, now) {
        var next := AfterTurn(jobs, first, turns(first));
        PassRunsOnce(next, order, now, turns, from + 1, end, key);
        if key == first {
          assert !DueBetween(next, order, now, from + 1, end, key);
        } else {
          assert DueBetween(jobs, order, now, from, end, key) <==> DueBetween(next, order, now, from + 1, end, key);
        }
      } else {
        PassRunsOnce(jobs, order, now, turns, from + 1, end, key);
        assert DueBetween(jobs, order, now, from, end, key) <==> DueBetween(jobs, order, now, from + 1, end, key);
      }
    }
  }

  /** The request belongs to one of the jobs from a place on. */
  predicate RequestOf(order: seq<JobKey>, from: nat, r: DispatchInput) {
    exists p :: from <= p < |order| && r.key == AutomaticKey(order[p])
  }

  /** Requests for jobs from a place on, each message once. */
  predicate SentOnce(order: seq<JobKey>, from: nat, sent: seq<DispatchInput>) {
    && (forall i :: 0 <= i < |sent| ==> RequestOf(order, from, sent[i]))
    && (forall i, j :: 0 <= i < j < |sent| ==> sent[i].key != sent[j].key)
  }

  lemma SentBefore(order: seq<JobKey>, from: nat, first: seq<DispatchInput>, rest: seq<DispatchInput>)
    requires Distinct(order) && from < |order| && SentOnce(order, from + 1, rest)
    requires first == [] || (|first| == 1 && first[0].key == AutomaticKey(order[from]))
    ensures SentOnce(order, from, first + rest)
  {
    var all, gone := first + rest, |first|;
    forall i | 0 <= i < |all|
      ensures RequestOf(order, from, all[i]) && (gone <= i ==> all[i].key != AutomaticKey(order[from]))
    {
      if gone <= i {
        assert all[i] == rest[i - gone] && RequestOf(order, from + 1, rest[i - gone]);
      }
    }
    forall i, j | 0 <= i < j < |all| ensures all[i].key != all[j].key {
      if gone <= i {
        assert all[i] == rest[i - gone] && all[j] == rest[j - gone];
      }
    }
  }

  /** A pass asks for each message once, and only for jobs it runs over. */
  lemma {:induction false} PassSendsOnce(jobs: Jobs, order: seq<JobKey>, now: int, turns: JobKey -> Turn, from: nat,
                                         end: nat)
    requires Distinct(order) && from <= end <= |order|
    ensures SentOnce(order, from, WorkedOff(jobs, order, now, turns, from, end).sent)
    decreases end - from
  {
    if from < end {
      var key := order[from];
      var due := Due(jobs, key, now);
      var next := if due then AfterTurn(jobs, key, turns(key)) else jobs;
      var first := if due then TurnRequests(key, jobs[key], turns(key)) else [];
      var rest := WorkedOff(next, order, now, turns, from + 1, end).sent;
      PassSendsOnce(next, order, now, turns, from + 1, end);
      SentBefore(order, from, first, rest);
      assert WorkedOff(jobs, order, now, turns, from, end).sent == first + rest;
    }
  }

  // ---------------------------------------------------------------- what the runner's writes keep

  /** The jobs can come to be these while nobody else changes them, without an observation. */
  ghost predicate Leads(store: Runs.Store, jobs: Jobs) {
    Runs.Sound(store.(jobs := jobs)) && Runs.Reaches(store, [], store.(jobs := jobs))
  }

  lemma LeadsNowhere(store: Runs.Store)
    requires Runs.Sound(store)
    ensures Leads(store, store.jobs)
  {
    assert store.(jobs := store.jobs) == store;
    Runs.ReachesItself(store);
  }

  lemma LeadsOn(store: Runs.Store, jobs: Jobs, key: JobKey, write: RunnerWrite)
    requires Leads(store, jobs) && Runs.Exclusive(store.(jobs := jobs), Runs.Write(key, write))
    ensures Leads(store, Written(jobs, key, write))
  {
    var between, a := store.(jobs := jobs), Runs.Write(key, write);
    Runs.StepKeeps(between, a);
    Runs.OneStepReaches(between, a);
    var none: seq<Source> := [];
    Runs.ReachesJoin(store, none, between, none, Runs.Step(between, a));
    assert none + none == none;
  }

  lemma TurnLeads(store: Runs.Store, jobs: Jobs, key: JobKey, now: int, t: Turn)
    requires Leads(store, jobs) && Due(jobs, key, now)
    ensures Leads(store, AfterTurn(jobs, key, t))
  {
    var write := WriteOf(jobs[key], t);
    if write.Some? {
      LeadsOn(store, jobs, key, write.value);
    } else {
      assert AfterTurn(jobs, key, t) == jobs;
    }
  }

  /** A pass over jobs that nobody else changes keeps live jobs on their source's current
      state, whatever sources and previews it reads. */
  lemma {:induction false} PassKeeps(store: Runs.Store, jobs: Jobs, order: seq<JobKey>, now: int,
                                     turns: JobKey -> Turn, from: nat, end: nat)
    requires Leads(store, jobs) && from <= end <= |order|
    ensures Leads(store, WorkedOff(jobs, order, now, turns, from, end).jobs)
    decreases end - from
  {
    if from < end {
      var key := order[from];
      if Due(jobs, key, now) {
        TurnLeads(store, jobs, key, now, turns(key));
        PassKeeps(store, AfterTurn(jobs, key, turns(key)), order, now, turns, from + 1, end);
      } else {
        PassKeeps(store, jobs, order, now, turns, from + 1, end);
      }
    }
  }

  lemma {:induction false} PageKeeps(store: Runs.Store, jobs: Jobs, order: seq<JobKey>, attempts: Attempts,
                                     page: seq<nat>)
    requires Leads(store, jobs) && Places(order, page)
    ensures Leads(store, TiedAll(jobs, order, attempts, page))
  {
    if page != [] {
      var front, key := page[..|page| - 1], order[page[|page| - 1]];
      PageKeeps(store, jobs, order, attempts, front);
      if key in attempts {
        LeadsOn(store, TiedAll(jobs, order, attempts, front), key, TieOf(attempts[key]));
      }
    }
  }

  /** What tying a page keeps, recovery keeps. */
  lemma {:induction false} RecoveryIsPages(good: Jobs -> bool, jobs: Jobs, order: seq<JobKey>, attempts: Attempts,
                                           cursor: Option<nat>)
    requires good(jobs) && (cursor.Some? ==> cursor.value < |order|)
    requires forall js, page {:trigger TiedAll(js, order, attempts, page)} ::
               good(js) && Places(order, page) ==> good(TiedAll(js, order, attempts, page))
    ensures good(Recovered(jobs, order, attempts, cursor))
    decreases if cursor.Some? then |order| - cursor.value else |order| + 1
  {
    var page := Take(FromCursor(jobs, order, cursor));
    assert Places(order, page);
    if |page| < PAGE {
      LastPage(jobs, order, attempts, cursor);
    } else {
      PageBeyond(jobs, order, cursor);
      RecoveredStep(jobs, order, attempts, cursor, page);
      RecoveryIsPages(good, TiedAll(jobs, order, attempts, page), order, attempts, Some(page[|page| - 1]));
    }
  }

  /** Recovery ties jobs and nothing else: live jobs stay on their source's current state. */
  lemma RecoveryKeeps(store: Runs.Store, order: seq<JobKey>, attempts: Attempts)
    requires Runs.Sound(store)
    ensures Leads(store, Recovered(store.jobs, order, attempts, None))
  {
    var good := jobs => Leads(store, jobs);
    forall js, page | good(js) && Places(order, page) ensures good(TiedAll(js, order, attempts, page)) {
      PageKeeps(store, js, order, attempts, page);
    }
    LeadsNowhere(store);
    RecoveryIsPages(good, store.jobs, order, attempts, None);
  }

  /** A run over a job that is still live when it is written keeps the jobs in order, and
      leaves the job tied, skipped or blocked -- unless the lease was lost right before
      sending, when nothing is written and nothing was sent. */
  lemma DispatchKeeps(store: Runs.Store, key: JobKey, job: Job, t: Turn)
    requires Runs.Consistent(store) && Runs.LiveAt(store.jobs, key)
    ensures var write := WriteOf(job, t);
            && (write.None? ==> !Sends(job, t))
            && (write.Some? ==>
                  && Runs.Consistent(store.(jobs := Written(store.jobs, key, write.value)))
                  && (var after := Written(store.jobs, key, write.value);
                      Runs.LiveAt(after, key) ==>
                        && after[key].status == Blocked && t.existing.None? && Current(job, t.source, t.now)
                        && (t.preview.PreviewRefused?
                            || (t.found.None? && (t.sent.None? || t.preview.PreviewFailed?)))))
  {
    var write := WriteOf(job, t);
    if write.Some? {
      Runs.WriteKeeps(store, Runs.Write(key, write.value));
    }
  }

  /** A message goes out only for a job without an attempt, within the hour it was due,
      and for the very version and state of the source that the runner had just read. */
  lemma SendsOnlyWhatItRead(key: JobKey, job: Job, t: Turn)
    requires Sends(job, t)
    ensures t.existing.None? && t.now <= job.dueAt + LATENESS_MS && t.source.Some?
    ensures var request, source := RequestFor(key, job, t.preview.key), t.source.value;
            && request.expectedVersion == Some(source.version) && job.sourceFingerprint == source.fingerprint
            && request.key == AutomaticKey(key) && request.mode == Automatic
            && source.eligible && source.status != Completed
            && (source.subject.kind == StaySubject ==> t.now < source.endAt)
  {
  }
}
