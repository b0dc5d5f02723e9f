/** What holds of every run of the dispatch protocol, from the empty table on. */
module DispatchRuns {
  import opened Wrappers
  import opened Provider
  import opened Messaging
  import opened DispatchProtocol

  lemma {:induction false} RunKeeps(w: World, actions: seq<Action>)
    requires Inv(w)
    ensures Inv(Run(w, actions))
    decreases |actions|
  {
    if actions != [] {
      StepKeeps(w, actions[0]);
      RunKeeps(Step(w, actions[0]), actions[1..]);
    }
  }

  lemma {:induction false} RowsMoveForward(w: World, actions: seq<Action>)
    requires Inv(w)
    ensures RowsForward(w.rows, Run(w, actions).rows)
    decreases |actions|
  {
    if actions != [] {
      StepKeeps(w, actions[0]);
      RowsMoveForward(Step(w, actions[0]), actions[1..]);
    }
  }

  lemma RunFromStart(actions: seq<Action>)
    ensures Inv(Run(START, actions))
  {
    RunKeeps(START, actions);
  }

  /** From any reachable state on: Failed and Delivered rows never change again,
      Accepted never falls back, nothing becomes Sending again and no provider id
      is lost; and an Accepted or Delivered row always has one. */
  lemma StatusesOnlyMoveForward(earlier: seq<Action>, later: seq<Action>)
    ensures RowsForward(Run(START, earlier).rows, Run(Run(START, earlier), later).rows)
    ensures forall id :: 0 <= id < |Run(START, earlier).rows| ==>
              var row := Run(START, earlier).rows[id];
              row.status == Accepted || row.status == Delivered ==> row.messageId.Some?
  {
    RunFromStart(earlier);
    RowsMoveForward(Run(START, earlier), later);
    var w := Run(START, earlier);
    forall id | 0 <= id < |w.rows|
      ensures w.rows[id].status == Accepted || w.rows[id].status == Delivered ==> w.rows[id].messageId.Some?
    {
      assert RowSound(w, id);
    }
  }

  /** In every interleaving each request key reaches the provider at most once. */
  lemma EachKeyIsSentAtMostOnce(actions: seq<Action>, k: nat, l: nat)
    requires k < l < |Run(START, actions).sends|
    ensures var sends := Run(START, actions).sends; sends[k].key != sends[l].key
  {
    var w := Run(START, actions);
    RunFromStart(actions);
    assert SentSound(w, k) && SentSound(w, l);
  }

  /** What is sent is what was claimed: the context rechecked right before the
      call has the claim's digest, and the version the caller asked for. */
  lemma SendsMatchTheirClaim(actions: seq<Action>, k: nat)
    requires k < |Run(START, actions).sends|
    ensures var w := Run(START, actions);
            var sent := w.sends[k];
            && sent.row < |w.rows| && w.rows[sent.row].key == sent.key
            && ContextHash(sent.context) == w.rows[sent.row].contextHash
            && (sent.expectedVersion.Some? ==> sent.context.version == sent.expectedVersion.value)
  {
    RunFromStart(actions);
    assert SentSound(Run(START, actions), k);
  }

  /** The deduplication key is null exactly on Failed rows, so of two attempts at
      one message event at least one is known to have failed. */
  lemma OneOpenAttemptPerEvent(actions: seq<Action>)
    ensures var w := Run(START, actions);
            && |w.events| == |w.rows|
            && (forall i :: 0 <= i < |w.rows| ==>
                  (w.rows[i].deduplicationKey.None? <==> w.rows[i].status == Failed))
            && (forall i, j :: 0 <= i < j < |w.rows| && w.events[i] == w.events[j] ==>
                  w.rows[i].status == Failed || w.rows[j].status == Failed)
  {
    var w := Run(START, actions);
    RunFromStart(actions);
    forall i | 0 <= i < |w.rows|
      ensures w.rows[i].deduplicationKey == if w.rows[i].status == Failed then None else Some(w.events[i])
    {
      assert RowSound(w, i);
    }
  }

  /** Repeating a request never answers with another request's row. */
  lemma RetriesReturnOneReceipt(actions: seq<Action>, c: nat, d: nat)
    requires var w := Run(START, actions);
             && c < |w.callers| && d < |w.callers| && w.callers[c].input.key == w.callers[d].input.key
             && w.callers[c].phase.Finished? && w.callers[c].phase.outcome.Ok?
             && w.callers[d].phase.Finished? && w.callers[d].phase.outcome.Ok?
    ensures var w := Run(START, actions);
            w.callers[c].phase.outcome == w.callers[d].phase.outcome
  {
    var w := Run(START, actions);
    RunFromStart(actions);
    assert CallerSound(w, c) && CallerSound(w, d);
  }
}
