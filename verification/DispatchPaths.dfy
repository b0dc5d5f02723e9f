/** The ways a dispatch and a refresh go from beginning to end when nobody comes between:
    the steps of the protocol do happen, and in this order. */
module DispatchPaths {
  import opened Wrappers
  import opened Provider
  import opened Messaging
  import opened DispatchProtocol

  /** Everyone and everything that was there is as it was. */
  predicate LeavesRest(w: World, after: World) {
    && |after.rows| == |w.rows| + 1 && after.rows[..|w.rows|] == w.rows && after.refreshers == w.refreshers
    && |after.callers| == |w.callers| + 1 && after.callers[..|w.callers|] == w.callers
  }

  predicate Free(w: World, input: DispatchInput, context: Context) {
    && (forall i :: 0 <= i < |w.rows| ==> w.rows[i].key != input.key)
    && forall i :: 0 <= i < |w.rows| ==>
         w.rows[i].deduplicationKey != Some(EventKey(context.subject, context.kind, context.eventIdentity))
  }

  /** A caller arrives, finds no row under its key and claims one. */
  function Claiming(w: World, input: DispatchInput, context: Context, now: int): World {
    var c := |w.callers|;
    Step(Step(Step(w, Arrive(input)), Lookup(c)), Claim(c, context, now, true, false))
  }

  lemma ClaimingMeans(w: World, input: DispatchInput, context: Context, now: int)
    requires Free(w, input, context) && AssertReady(context, input, now).None? && Reads(input, context)
    ensures var claimed, id := Claiming(w, input, context, now), |w.rows|;
            && LeavesRest(w, claimed) && claimed.callers[|w.callers|] == Caller(input, Claimed(id))
            && claimed.rows[id] == ClaimedRow(input, context, now, w.stamp) && claimed.sends == w.sends
            && claimed.stamp == w.stamp + 1
            && claimed.events == w.events + [EventKey(context.subject, context.kind, context.eventIdentity)]
  {
  }

  /** A ready request with a new key, about an event without an open attempt, is claimed,
      rechecked, sent once as it was claimed, and ends with the provider's answer on its row. */
  lemma DispatchGoesThrough(w: World, input: DispatchInput, context: Context, now: int, reply: SendReply)
    requires Free(w, input, context) && AssertReady(context, input, now).None? && Reads(input, context)
    ensures context.to.Some?
    ensures var c, id := |w.callers|, |w.rows|;
            var cleared := Step(Claiming(w, input, context, now), Recheck(c, context, now, true));
            var after := Step(Step(cleared, CallProvider(c)), Record(c, reply, now));
            && LeavesRest(w, after) && after.callers[c] == Caller(input, Finished(Ok(id)))
            && after.sends == w.sends + [Sent(id, input.key, input.mode, input.expectedVersion, context)]
            && after.events == w.events + [EventKey(context.subject, context.kind, context.eventIdentity)]
            && (var row, result := after.rows[id], SendOutcome(context.to.value, reply);
                && row.subject == input.subject && row.kind == input.kind && row.mode == input.mode
                && row.key == input.key && row.createdAt == now && row.lastCheckedAt == Some(now)
                && row.status == result.status && row.messageId == result.messageId
                && row.groupId == result.groupId && row.errorCode == result.errorCode
                && row.deduplicationKey == if result.status == Failed then None
                                           else Some(EventKey(context.subject, context.kind, context.eventIdentity)))
  {
    ClaimingMeans(w, input, context, now);
  }

  /** A claimed request that is no longer ready, or about something else than was claimed, is
      not sent, and ends as a failure that frees its event. */
  lemma ChangedContextIsNotSent(w: World, input: DispatchInput, context: Context, now: int, changed: Context,
                                later: int, authorized: bool)
    requires Free(w, input, context) && AssertReady(context, input, now).None? && Reads(input, context)
    requires Reads(input, changed)
    requires !authorized || AssertReady(changed, input, later).Some? || ContextHash(changed) != ContextHash(context)
    ensures var c, id := |w.callers|, |w.rows|;
            var rejecting := Step(Claiming(w, input, context, now), Recheck(c, changed, later, authorized));
            var after := Step(rejecting, RejectLocally(c));
            && LeavesRest(w, after) && after.callers[c] == Caller(input, Finished(Ok(id))) && after.sends == w.sends
            && (var row := after.rows[id];
                && row.key == input.key && row.status == Failed && row.deduplicationKey.None?
                && row.errorCode == Some("CONTEXT_CHANGED_BEFORE_SEND") && row.messageId.None?)
  {
    ClaimingMeans(w, input, context, now);
  }

  /** A request whose key was used is answered with the row under it, and one that may not be
      claimed with its refusal; neither writes or sends. */
  lemma RepeatIsOnlyAnswered(w: World, input: DispatchInput, context: Context, now: int, authorized: bool,
                             beaten: bool)
    ensures var c := |w.callers|;
            var looked := Step(Step(w, Arrive(input)), Lookup(c));
            && looked == w.(callers := looked.callers) && |looked.callers| == c + 1 && looked.callers[..c] == w.callers
            && (HasKey(w.rows, input.key) ==> looked.callers[c] == Caller(input, Finished(Existing(w.rows, input))))
            && (!HasKey(w.rows, input.key) && Reads(input, context)
                && !Claims(w.rows, input, context, now, authorized) ==>
                  var after := Step(looked, Claim(c, context, now, authorized, beaten));
                  && after == w.(callers := after.callers) && |after.callers| == c + 1
                  && after.callers[..c] == w.callers
                  && after.callers[c]
                     == Caller(input, Finished(RefusedClaim(w.rows, input, context, now, authorized, beaten))))
  {
  }

  /** A refresh writes what it made of the reply onto the row as it read it, unless somebody
      wrote that row in between. */
  lemma RefreshWritesUnlessBeaten(w: World, id: nat, now: int, between: World, reply: LookupReply, later: int)
    requires id < |w.rows| && RefreshProceeds(w.rows[id], now)
    requires |w.rows| <= |between.rows| && Step(w, BeginRefresh(id, now)).refreshers <= between.refreshers
    ensures var r := |w.refreshers|;
            var after := Step(between, EndRefresh(r, reply, later));
            && |w.refreshers| < |between.refreshers| && |after.rows| == |between.rows|
            && (forall other: nat :: other < |between.rows| && other != id ==> after.rows[other] == between.rows[other])
            && after.callers == between.callers && after.sends == between.sends
            && after.rows[id] == if between.rows[id].updatedAt == w.rows[id].updatedAt
                                 then Refreshed(between.rows[id], reply, later, between.stamp) else between.rows[id]
  {
    assert between.refreshers[|w.refreshers|] == Refresher(id, w.rows[id]);
  }

  lemma RefreshNeedsReason(w: World, id: nat, now: int)
    requires id < |w.rows| && !RefreshProceeds(w.rows[id], now)
    ensures Step(w, BeginRefresh(id, now)) == w
  {
  }
}
