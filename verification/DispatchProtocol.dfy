/** The dispatch protocol under any interleaving: every caller of `dispatch`
    walks claim, recheck, remote call, record, one transaction or one remote call
    at a time; refreshes read a row and write it later; any of them may stop for
    good between two steps. */
module DispatchProtocol {
  import opened Wrappers
  import opened Provider
  import opened Messaging

  datatype Phase =
    | Entered
    | Claiming
    | Claimed(row: nat)
    | Rejecting(row: nat)
    | Cleared(row: nat, context: Context)
    | InFlight(row: nat, to: string)
    | Finished(outcome: Result<nat, MessagingError>)
    | Crashed

  datatype Caller = Caller(input: DispatchInput, phase: Phase)

  datatype Refresher = Refresher(row: nat, read: Dispatch)

  /** One call of `provider.send`. */
  datatype Sent = Sent(
    row: nat, key: RequestKey, mode: Mode, expectedVersion: Option<int>, context: Context)

  /** The table, everyone working on it and, as history, the event each claim was
      made for and every call of the provider. */
  datatype World = World(
    rows: seq<Dispatch>,
    stamp: nat,
    callers: seq<Caller>,
    refreshers: seq<Refresher>,
    events: seq<EventKey>,
    sends: seq<Sent>)

  datatype Action =
    | Arrive(input: DispatchInput)
    | Lookup(c: nat)
    | Claim(c: nat, context: Context, now: int, authorized: bool, beaten: bool)
    | Recheck(c: nat, context: Context, now: int, authorized: bool)
    | RejectLocally(c: nat)
    | CallProvider(c: nat)
    | Record(c: nat, reply: SendReply, now: int)
    | Crash(c: nat)
    | BeginRefresh(row: nat, now: int)
    | EndRefresh(r: nat, looked: LookupReply, now: int)

  const START := World([], 0, [], [], [], [])

  function At(w: World, c: nat, phase: Phase): World
    requires c < |w.callers|
  {
    w.(callers := w.callers[c := w.callers[c].(phase := phase)])
  }

  /** The context both transactions read is the subject's own and of the asked kind. */
  predicate Reads(input: DispatchInput, context: Context) {
    context.subject == input.subject && context.kind == input.kind
  }

  function ClaimStep(w: World, c: nat, context: Context, now: int, authorized: bool, beaten: bool): World
    requires c < |w.callers|
  {
    var input := w.callers[c].input;
    if Claims(w.rows, input, context, now, authorized) then
      At(w, c, Claimed(|w.rows|)).(rows := w.rows + [ClaimedRow(input, context, now, w.stamp)],
                                   stamp := w.stamp + 1, events := w.events + [EventOf(context)])
    else At(w, c, Finished(RefusedClaim(w.rows, input, context, now, authorized, beaten)))
  }

  function WriteRow(w: World, id: nat, row: Dispatch): World
    requires id < |w.rows|
  {
    w.(rows := w.rows[id := row], stamp := w.stamp + 1)
  }

  /** One step; an action that is not enabled changes nothing. */
  function Step(w: World, a: Action): World {
    match a
    case Arrive(input) => w.(callers := w.callers + [Caller(input, Entered)])
    case Lookup(c) =>
      if !(c < |w.callers| && w.callers[c].phase.Entered?) then w
      else if HasKey(w.rows, w.callers[c].input.key) then
        At(w, c, Finished(Existing(w.rows, w.callers[c].input)))
      else At(w, c, Claiming)
    case Claim(c, context, now, authorized, beaten) =>
      if !(c < |w.callers| && w.callers[c].phase.Claiming? && Reads(w.callers[c].input, context)) then w
      else ClaimStep(w, c, context, now, authorized, beaten)
    case Recheck(c, context, now, authorized) =>
      if !(c < |w.callers| && w.callers[c].phase.Claimed? && Reads(w.callers[c].input, context)) then w
      else
        var caller := w.callers[c];
        var id := caller.phase.row;
        if && id < |w.rows| && authorized && AssertReady(context, caller.input, now).None?
           && ContextHash(context) == w.rows[id].contextHash
        then At(w, c, Cleared(id, context)) else At(w, c, Rejecting(id))
    case RejectLocally(c) =>
      if !(c < |w.callers| && w.callers[c].phase.Rejecting? && w.callers[c].phase.row < |w.rows|) then w
      else
        var id := w.callers[c].phase.row;
        At(WriteRow(w, id, FailedLocally(w.rows[id], w.stamp)), c, Finished(Ok(id)))
    case CallProvider(c) =>
      if !(c < |w.callers| && w.callers[c].phase.Cleared? && w.callers[c].phase.context.to.Some?) then w
      else
        var caller := w.callers[c];
        At(w, c, InFlight(caller.phase.row, caller.phase.context.to.value))
          .(sends := w.sends + [Sent(caller.phase.row, caller.input.key, caller.input.mode,
                                     caller.input.expectedVersion, caller.phase.context)])
    case Record(c, reply, now) =>
      if !(c < |w.callers| && w.callers[c].phase.InFlight? && w.callers[c].phase.row < |w.rows|) then w
      else
        var id := w.callers[c].phase.row;
        var result := SendOutcome(w.callers[c].phase.to, reply);
        At(WriteRow(w, id, Recorded(w.rows[id], result, now, w.stamp)), c, Finished(Ok(id)))
    case Crash(c) =>
      if !(c < |w.callers| && !w.callers[c].phase.Finished?) then w else At(w, c, Crashed)
    case BeginRefresh(id, now) =>
      if !(id < |w.rows| && RefreshProceeds(w.rows[id], now)) then w
      else w.(refreshers := w.refreshers + [Refresher(id, w.rows[id])])
    case EndRefresh(r, reply, now) =>
      if !(r < |w.refreshers| && w.refreshers[r].row < |w.rows|) then w
      else
        var read := w.refreshers[r].read;
        var id := w.refreshers[r].row;
        if w.rows[id].updatedAt != read.updatedAt then w
        else WriteRow(w, id, Refreshed(w.rows[id], reply, now, w.stamp))
  }

  function Run(w: World, actions: seq<Action>): World
    decreases |actions|
  {
    if actions == [] then w else Run(Step(w, actions[0]), actions[1..])
  }

  // ---------------------------------------------------------------- the invariant

  predicate RowSound(w: World, id: nat)
    requires id < |w.rows| && |w.events| == |w.rows|
  {
    var row := w.rows[id];
    && row.deduplicationKey == (if row.status == Failed then None else Some(w.events[id]))
    && (row.status == Accepted || row.status == Delivered ==> row.messageId.Some?)
    && row.updatedAt < w.stamp
  }

  /** The caller still has the last write of its row ahead of it. */
  predicate Owns(caller: Caller, id: nat) {
    && (caller.phase.Claimed? || caller.phase.Rejecting? || caller.phase.Cleared? || caller.phase.InFlight?)
    && caller.phase.row == id
  }

  predicate CallerSound(w: World, c: nat)
    requires c < |w.callers|
  {
    var caller := w.callers[c];
    && (caller.phase.Claimed? || caller.phase.Rejecting? || caller.phase.Cleared? || caller.phase.InFlight? ==>
          && var id := caller.phase.row;
          && id < |w.rows|
          && w.rows[id].key == caller.input.key && w.rows[id].mode == caller.input.mode
          && w.rows[id].messageId.None? && (w.rows[id].status == Sending || w.rows[id].status == Unknown)
          && (!caller.phase.InFlight? ==> forall k :: 0 <= k < |w.sends| ==> w.sends[k].row != id))
    && (caller.phase.Cleared? ==>
          && Reads(caller.input, caller.phase.context)
          && (caller.input.expectedVersion.Some? ==>
                caller.phase.context.version == caller.input.expectedVersion.value)
          && ContextHash(caller.phase.context) == w.rows[caller.phase.row].contextHash)
    && (caller.phase.Finished? && caller.phase.outcome.Ok? ==>
          && caller.phase.outcome.value < |w.rows|
          && w.rows[caller.phase.outcome.value].key == caller.input.key)
  }

  predicate SentSound(w: World, k: nat)
    requires k < |w.sends|
  {
    && w.sends[k].row < |w.rows|
    && var row := w.rows[w.sends[k].row];
    && w.sends[k].key == row.key && w.sends[k].mode == row.mode
    && ContextHash(w.sends[k].context) == row.contextHash
    && (w.sends[k].expectedVersion.Some? ==> w.sends[k].context.version == w.sends[k].expectedVersion.value)
  }

  predicate RefresherSound(w: World, r: nat)
    requires r < |w.refreshers|
  {
    var f := w.refreshers[r];
    && f.row < |w.rows|
    && f.read.updatedAt <= w.rows[f.row].updatedAt
    && (f.read.updatedAt == w.rows[f.row].updatedAt ==> f.read == w.rows[f.row])
    && f.read.status != Failed && f.read.status != Delivered
  }

  ghost predicate Inv(w: World) {
    && |w.events| == |w.rows|
    && (forall id :: 0 <= id < |w.rows| ==> RowSound(w, id))
    && (forall i, j :: 0 <= i < j < |w.rows| ==> w.rows[i].key != w.rows[j].key)
    && (forall i, j :: 0 <= i < j < |w.rows| ==>
          w.rows[i].deduplicationKey.None? || w.rows[i].deduplicationKey != w.rows[j].deduplicationKey)
    && (forall c :: 0 <= c < |w.callers| ==> CallerSound(w, c))
    && (forall c, d, id: nat :: 0 <= c < d < |w.callers| && Owns(w.callers[c], id) ==> !Owns(w.callers[d], id))
    && (forall k :: 0 <= k < |w.sends| ==> SentSound(w, k))
    && (forall k, l :: 0 <= k < l < |w.sends| ==> w.sends[k].row != w.sends[l].row)
    && (forall r :: 0 <= r < |w.refreshers| ==> RefresherSound(w, r))
  }

  /** How one row may differ between two moments of a run. */
  predicate Forward(a: Dispatch, b: Dispatch) {
    && a.subject == b.subject && a.kind == b.kind && a.mode == b.mode && a.key == b.key
    && a.contextHash == b.contextHash && a.createdAt == b.createdAt
    && (a.status == Failed || a.status == Delivered ==> a == b)
    && (a.status == Accepted ==> b.status in {Accepted, Delivered, Failed})
    && (b.status == Sending ==> a.status == Sending)
    && (a.messageId.Some? ==> a.messageId == b.messageId)
    && a.updatedAt <= b.updatedAt
  }

  predicate RowsForward(before: seq<Dispatch>, after: seq<Dispatch>) {
    |before| <= |after| && forall id :: 0 <= id < |before| ==> Forward(before[id], after[id])
  }

  // ---------------------------------------------------------------- every step keeps it

  /** Moving one caller to a phase that is sound for it, and owns no row anyone
      else owns, keeps everything. */
  lemma PhaseKeeps(w: World, c: nat, phase: Phase)
    requires Inv(w)
    requires c < |w.callers| && CallerSound(At(w, c, phase), c)
    requires forall d, id: nat :: 0 <= d < |w.callers| && d != c && Owns(w.callers[c].(phase := phase), id) ==>
               !Owns(w.callers[d], id)
    ensures Inv(At(w, c, phase))
  {
    var next := At(w, c, phase);
    forall id | 0 <= id < |next.rows| ensures RowSound(next, id) {
      assert RowSound(w, id);
    }
    forall d | 0 <= d < |next.callers| ensures CallerSound(next, d) {
      assert d != c ==> CallerSound(w, d);
    }
    forall k | 0 <= k < |next.sends| ensures SentSound(next, k) {
      assert SentSound(w, k);
    }
    forall r | 0 <= r < |next.refreshers| ensures RefresherSound(next, r) {
      assert RefresherSound(w, r);
    }
  }

  lemma ArriveKeeps(w: World, input: DispatchInput)
    requires Inv(w)
    ensures Inv(w.(callers := w.callers + [Caller(input, Entered)]))
  {
    var next := w.(callers := w.callers + [Caller(input, Entered)]);
    forall id | 0 <= id < |next.rows| ensures RowSound(next, id) {
      assert RowSound(w, id);
    }
    forall d | 0 <= d < |next.callers| ensures CallerSound(next, d) {
      assert d < |w.callers| ==> CallerSound(w, d);
    }
    forall k | 0 <= k < |next.sends| ensures SentSound(next, k) {
      assert SentSound(w, k);
    }
    forall r | 0 <= r < |next.refreshers| ensures RefresherSound(next, r) {
      assert RefresherSound(w, r);
    }
  }

  lemma BeginRefreshKeeps(w: World, id: nat, now: int)
    requires Inv(w) && id < |w.rows| && RefreshProceeds(w.rows[id], now)
    ensures Inv(w.(refreshers := w.refreshers + [Refresher(id, w.rows[id])]))
  {
    var next := w.(refreshers := w.refreshers + [Refresher(id, w.rows[id])]);
    forall i | 0 <= i < |next.rows| ensures RowSound(next, i) {
      assert RowSound(w, i);
    }
    forall d | 0 <= d < |next.callers| ensures CallerSound(next, d) {
      assert CallerSound(w, d);
    }
    forall k | 0 <= k < |next.sends| ensures SentSound(next, k) {
      assert SentSound(w, k);
    }
    forall r | 0 <= r < |next.refreshers| ensures RefresherSound(next, r) {
      assert r < |w.refreshers| ==> RefresherSound(w, r);
    }
  }

  function WithRow(w: World, row: Dispatch, event: EventKey): World {
    w.(rows := w.rows + [row], stamp := w.stamp + 1, events := w.events + [event])
  }

  lemma NewRowKeeps(w: World, row: Dispatch, event: EventKey)
    requires Inv(w)
    requires !HasKey(w.rows, row.key) && !HasEvent(w.rows, event)
    requires row.deduplicationKey == Some(event) && row.status == Sending && row.updatedAt == w.stamp
    ensures Inv(WithRow(w, row, event))
  {
    var next := WithRow(w, row, event);
    forall id | 0 <= id < |next.rows| ensures RowSound(next, id) {
      assert id < |w.rows| ==> RowSound(w, id);
    }
    forall d | 0 <= d < |next.callers| ensures CallerSound(next, d) {
      assert CallerSound(w, d);
    }
    forall k | 0 <= k < |next.sends| ensures SentSound(next, k) {
      assert SentSound(w, k);
    }
    forall r | 0 <= r < |next.refreshers| ensures RefresherSound(next, r) {
      assert RefresherSound(w, r);
    }
  }

  lemma ClaimKeeps(w: World, c: nat, context: Context, now: int, authorized: bool, beaten: bool)
    requires Inv(w)
    requires c < |w.callers| && w.callers[c].phase.Claiming?
    ensures Inv(ClaimStep(w, c, context, now, authorized, beaten))
  {
    var input := w.callers[c].input;
    var next := ClaimStep(w, c, context, now, authorized, beaten);
    if Claims(w.rows, input, context, now, authorized) {
      var row := ClaimedRow(input, context, now, w.stamp);
      NewRowKeeps(w, row, EventOf(context));
      var wider := WithRow(w, row, EventOf(context));
      forall d, id: nat | 0 <= d < |w.callers| && Owns(w.callers[d], id) ensures id < |w.rows| {
        assert CallerSound(w, d);
      }
      forall k | 0 <= k < |w.sends| ensures w.sends[k].row < |w.rows| {
        assert SentSound(w, k);
      }
      PhaseKeeps(wider, c, Claimed(|w.rows|));
      assert next == At(wider, c, Claimed(|w.rows|));
    } else {
      PhaseKeeps(w, c, next.callers[c].phase);
    }
  }

  lemma RecheckKeeps(w: World, c: nat, context: Context, now: int, authorized: bool)
    requires Inv(w)
    requires c < |w.callers| && w.callers[c].phase.Claimed? && Reads(w.callers[c].input, context)
    ensures Inv(Step(w, Recheck(c, context, now, authorized)))
    ensures Step(w, Recheck(c, context, now, authorized)).rows == w.rows
  {
    assert CallerSound(w, c);
    var id := w.callers[c].phase.row;
    assert Owns(w.callers[c], id);
    if && authorized && AssertReady(context, w.callers[c].input, now).None?
       && ContextHash(context) == w.rows[id].contextHash {
      PhaseKeeps(w, c, Cleared(id, context));
    } else {
      PhaseKeeps(w, c, Rejecting(id));
    }
  }

  lemma SendKeeps(w: World, c: nat)
    requires Inv(w)
    ensures Inv(Step(w, CallProvider(c)))
  {
    var next := Step(w, CallProvider(c));
    if next != w {
      assert CallerSound(w, c);
      forall id | 0 <= id < |next.rows| ensures RowSound(next, id) {
        assert RowSound(w, id);
      }
      forall d | 0 <= d < |next.callers| ensures CallerSound(next, d) {
        assert CallerSound(w, d);
        if d != c && (w.callers[d].phase.Claimed? || w.callers[d].phase.Rejecting? || w.callers[d].phase.Cleared?) {
          assert Owns(w.callers[d], w.callers[d].phase.row);
          assert Owns(w.callers[c], w.callers[c].phase.row);
        }
      }
      forall k | 0 <= k < |next.sends| ensures SentSound(next, k) {
        if k < |w.sends| {
          assert SentSound(w, k);
        }
      }
      forall r | 0 <= r < |next.refreshers| ensures RefresherSound(next, r) {
        assert RefresherSound(w, r);
      }
      forall d, e, id: nat | 0 <= d < e < |next.callers| && Owns(next.callers[d], id)
        ensures !Owns(next.callers[e], id)
      {
        assert Owns(w.callers[d], id);
      }
    }
  }

  /** A write of row `id` that its owner, or a refresh, may make. */
  predicate AllowedWrite(w: World, id: nat, row: Dispatch)
    requires id < |w.rows| && |w.events| == |w.rows|
  {
    && row == w.rows[id].(status := row.status, messageId := row.messageId, groupId := row.groupId,
                          errorCode := row.errorCode, lastCheckedAt := row.lastCheckedAt,
                          deduplicationKey := row.deduplicationKey, updatedAt := w.stamp)
    && row.deduplicationKey == (if row.status == Failed then None else Some(w.events[id]))
    && (row.status == Accepted || row.status == Delivered ==> row.messageId.Some?)
    && Forward(w.rows[id], row)
  }

  /** Writing one row keeps everything as long as nobody else still owns it, or
      the row stays open for its owner. */
  lemma WriteKeeps(w: World, id: nat, row: Dispatch, next: World)
    requires Inv(w)
    requires id < |w.rows| && AllowedWrite(w, id, row)
    requires next == WriteRow(w, id, row).(callers := next.callers)
    requires |next.callers| == |w.callers|
    requires forall c :: 0 <= c < |w.callers| ==>
               || next.callers[c] == w.callers[c]
               || (Owns(w.callers[c], id) && next.callers[c] == w.callers[c].(phase := Finished(Ok(id))))
    requires forall c :: 0 <= c < |next.callers| && Owns(next.callers[c], id) ==>
               row.messageId.None? && (row.status == Sending || row.status == Unknown)
    ensures Inv(next) && RowsForward(w.rows, next.rows)
  {
    assert RowSound(w, id);
    forall i | 0 <= i < |next.rows| ensures RowSound(next, i) {
      assert RowSound(w, i);
    }
    forall i, j | 0 <= i < j < |next.rows|
      ensures next.rows[i].key != next.rows[j].key
      ensures next.rows[i].deduplicationKey.None? || next.rows[i].deduplicationKey != next.rows[j].deduplicationKey
    {
      assert RowSound(w, i) && RowSound(w, j);
      assert w.rows[i].key != w.rows[j].key;
      if i == id || j == id {
        assert Forward(w.rows[id], row);
        assert w.rows[i].deduplicationKey.None? || w.rows[i].deduplicationKey != w.rows[j].deduplicationKey;
      }
    }
    forall c | 0 <= c < |next.callers| ensures CallerSound(next, c) {
      assert CallerSound(w, c);
      if next.callers[c] == w.callers[c] &&
         (w.callers[c].phase.Claimed? || w.callers[c].phase.Rejecting? || w.callers[c].phase.Cleared?
          || w.callers[c].phase.InFlight?) {
        assert Owns(next.callers[c], w.callers[c].phase.row);
      }
    }
    forall c, d, i: nat | 0 <= c < d < |next.callers| && Owns(next.callers[c], i)
      ensures !Owns(next.callers[d], i)
    {
      assert Owns(w.callers[c], i);
    }
    forall k | 0 <= k < |next.sends| ensures SentSound(next, k) {
      assert SentSound(w, k);
    }
    forall r | 0 <= r < |next.refreshers| ensures RefresherSound(next, r) {
      assert RefresherSound(w, r);
    }
  }

  lemma OwnerWriteKeeps(w: World, c: nat, id: nat, row: Dispatch)
    requires Inv(w)
    requires c < |w.callers| && Owns(w.callers[c], id)
    requires id < |w.rows| && AllowedWrite(w, id, row)
    ensures Inv(At(WriteRow(w, id, row), c, Finished(Ok(id))))
    ensures RowsForward(w.rows, At(WriteRow(w, id, row), c, Finished(Ok(id))).rows)
  {
    var next := At(WriteRow(w, id, row), c, Finished(Ok(id)));
    assert forall d :: 0 <= d < |next.callers| && d != c && Owns(next.callers[d], id) ==> Owns(w.callers[d], id);
    WriteKeeps(w, id, row, next);
  }

  lemma RejectKeeps(w: World, c: nat)
    requires Inv(w)
    requires c < |w.callers| && w.callers[c].phase.Rejecting?
    ensures Inv(Step(w, RejectLocally(c)))
    ensures RowsForward(w.rows, Step(w, RejectLocally(c)).rows)
  {
    assert CallerSound(w, c);
    var id := w.callers[c].phase.row;
    assert RowSound(w, id);
    OwnerWriteKeeps(w, c, id, FailedLocally(w.rows[id], w.stamp));
  }

  lemma RecordKeeps(w: World, c: nat, reply: SendReply, now: int)
    requires Inv(w)
    requires c < |w.callers| && w.callers[c].phase.InFlight?
    ensures Inv(Step(w, Record(c, reply, now)))
    ensures RowsForward(w.rows, Step(w, Record(c, reply, now)).rows)
  {
    assert CallerSound(w, c);
    var id := w.callers[c].phase.row;
    var result := SendOutcome(w.callers[c].phase.to, reply);
    assert RowSound(w, id);
    SendOutcomeShape(w.callers[c].phase.to, reply);
    assert w.rows[id].deduplicationKey == Some(w.events[id]);
    OwnerWriteKeeps(w, c, id, Recorded(w.rows[id], result, now, w.stamp));
  }

  lemma RefreshKeeps(w: World, r: nat, reply: LookupReply, now: int)
    requires Inv(w)
    ensures Inv(Step(w, EndRefresh(r, reply, now)))
    ensures RowsForward(w.rows, Step(w, EndRefresh(r, reply, now)).rows)
  {
    var next := Step(w, EndRefresh(r, reply, now));
    if r < |w.refreshers| && w.refreshers[r].row < |w.rows|
       && w.rows[w.refreshers[r].row].updatedAt == w.refreshers[r].read.updatedAt {
      assert RefresherSound(w, r);
      var id := w.refreshers[r].row;
      assert RowSound(w, id);
      var row := Refreshed(w.rows[id], reply, now, w.stamp);
      forall c | 0 <= c < |w.callers| && Owns(w.callers[c], id)
        ensures row.messageId.None? && row.status == Unknown
      {
        assert CallerSound(w, c);
      }
      WriteKeeps(w, id, row, next);
    }
  }

  lemma QuietStepKeeps(w: World, a: Action)
    requires Inv(w)
    requires a.Arrive? || a.Lookup? || a.Crash? || a.BeginRefresh?
    ensures Inv(Step(w, a)) && Step(w, a).rows == w.rows
  {
    match a
    case Arrive(input) => ArriveKeeps(w, input);
    case Lookup(c) =>
      if c < |w.callers| && w.callers[c].phase.Entered? {
        PhaseKeeps(w, c, Step(w, a).callers[c].phase);
      }
    case Crash(c) =>
      if c < |w.callers| && !w.callers[c].phase.Finished? {
        PhaseKeeps(w, c, Crashed);
      }
    case BeginRefresh(id, now) =>
      if id < |w.rows| && RefreshProceeds(w.rows[id], now) {
        BeginRefreshKeeps(w, id, now);
      }
  }

  lemma ClaimStepKeeps(w: World, a: Action)
    requires Inv(w)
    requires a.Claim? || a.Recheck? || a.CallProvider?
    ensures Inv(Step(w, a)) && RowsForward(w.rows, Step(w, a).rows)
  {
    match a
    case Claim(c, context, now, authorized, beaten) =>
      if c < |w.callers| && w.callers[c].phase.Claiming? && Reads(w.callers[c].input, context) {
        ClaimKeeps(w, c, context, now, authorized, beaten);
      }
    case Recheck(c, context, now, authorized) =>
      if c < |w.callers| && w.callers[c].phase.Claimed? && Reads(w.callers[c].input, context) {
        RecheckKeeps(w, c, context, now, authorized);
      }
    case CallProvider(c) => SendKeeps(w, c);
  }

  lemma WriteStepKeeps(w: World, a: Action)
    requires Inv(w)
    requires a.RejectLocally? || a.Record? || a.EndRefresh?
    ensures Inv(Step(w, a)) && RowsForward(w.rows, Step(w, a).rows)
  {
    match a
    case RejectLocally(c) =>
      if c < |w.callers| && w.callers[c].phase.Rejecting? {
        RejectKeeps(w, c);
      }
    case Record(c, reply, now) =>
      if c < |w.callers| && w.callers[c].phase.InFlight? {
        RecordKeeps(w, c, reply, now);
      }
    case EndRefresh(r, looked, now) => RefreshKeeps(w, r, looked, now);
  }

  lemma StepKeeps(w: World, a: Action)
    requires Inv(w)
    ensures Inv(Step(w, a)) && RowsForward(w.rows, Step(w, a).rows)
  {
    if a.Claim? || a.Recheck? || a.CallProvider? {
      ClaimStepKeeps(w, a);
    } else if a.RejectLocally? || a.Record? || a.EndRefresh? {
      WriteStepKeeps(w, a);
    } else {
      QuietStepKeeps(w, a);
    }
  }
}
