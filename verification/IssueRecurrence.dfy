/** Links from an issue to the earlier one it repeats. */
module IssueRecurrence {
  import opened Wrappers

  const MAX_DEPTH := 100

  datatype Node = Node(propertyId: string, reportedAt: int, cancelled: bool, version: int,
                       recurrenceOf: Option<string>)

  type Issues = map<string, Node>

  datatype WalkError = Cycle | ReviewRequired | InvalidTarget

  // ---------------------------------------------------------------- a chain worth linking to

  /** The issue is an earlier one of the property. */
  predicate Earlier(issues: Issues, id: string, propertyId: string, newer: int) {
    && id in issues && issues[id].propertyId == propertyId && 1 <= issues[id].version
    && issues[id].reportedAt < newer
  }

  /** From the first on, each issue is earlier than the one before and linked to
      the next, down to one that repeats none. */
  predicate IsChain(issues: Issues, propertyId: string, newer: int, ids: seq<string>)
    decreases |ids|
  {
    ids == []
    || (&& Earlier(issues, ids[0], propertyId, newer)
        && issues[ids[0]].recurrenceOf == (if |ids| > 1 then Some(ids[1]) else None)
        && IsChain(issues, propertyId, issues[ids[0]].reportedAt, ids[1..]))
  }

  /** A chain that begins with the target of an issue. */
  predicate ChainFor(issues: Issues, issueId: string, targetId: string, ids: seq<string>)
    requires issueId in issues
  {
    && IsChain(issues, issues[issueId].propertyId, issues[issueId].reportedAt, ids)
    && 1 <= |ids| <= MAX_DEPTH && ids[0] == targetId && !issues[targetId].cancelled
  }

  ghost predicate Linkable(issues: Issues, issueId: string, targetId: string)
    requires issueId in issues
  {
    exists ids :: ChainFor(issues, issueId, targetId, ids)
  }

  // ---------------------------------------------------------------- the walk

  /** What is left of the walk ends well within so many steps. */
  predicate Ends(issues: Issues, propertyId: string, newer: int, next: Option<string>, steps: nat)
    decreases steps
  {
    next.None?
    || (steps > 0 && Earlier(issues, next.value, propertyId, newer)
        && Ends(issues, propertyId, issues[next.value].reportedAt, issues[next.value].recurrenceOf, steps - 1))
  }

  lemma {:induction false} ChainEnds(issues: Issues, propertyId: string, newer: int, ids: seq<string>, steps: nat)
    requires IsChain(issues, propertyId, newer, ids) && |ids| <= steps
    ensures Ends(issues, propertyId, newer, if ids == [] then None else Some(ids[0]), steps)
    decreases steps
  {
    if ids != [] {
      ChainEnds(issues, propertyId, issues[ids[0]].reportedAt, ids[1..], steps - 1);
    }
  }

  lemma {:induction false} EndsChain(issues: Issues, propertyId: string, newer: int, next: Option<string>, steps: nat)
    returns (ids: seq<string>)
    requires Ends(issues, propertyId, newer, next, steps)
    ensures IsChain(issues, propertyId, newer, ids) && |ids| <= steps
    ensures next == if ids == [] then None else Some(ids[0])
    decreases steps
  {
    if next.None? {
      ids := [];
    } else {
      var node := issues[next.value];
      var rest := EndsChain(issues, propertyId, node.reportedAt, node.recurrenceOf, steps - 1);
      ids := [next.value] + rest;
      assert ids[1..] == rest;
    }
  }

  /** Walks along the links of a proposed target. The set of visited issues only
      decides which error is reported: an issue that comes up again is never
      earlier than the one before. */
  method AssertRecurrenceTarget(issues: Issues, issueId: string, targetId: string) returns (r: Result<(), WalkError>)
    requires issueId in issues
    ensures r.Ok? <==> Linkable(issues, issueId, targetId)
  {
    var issue := issues[issueId];
    var visited, nextId, newer := {issueId}, Some(targetId), issue.reportedAt;
    var depth := 0;
    while nextId.Some?
      invariant 0 <= depth <= MAX_DEPTH
      invariant depth > 0 ==> targetId in issues && !issues[targetId].cancelled
      invariant forall id :: id in visited ==> id in issues && newer <= issues[id].reportedAt
      invariant Ends(issues, issue.propertyId, newer, nextId, MAX_DEPTH - depth)
                <==> Ends(issues, issue.propertyId, issue.reportedAt, Some(targetId), MAX_DEPTH)
      invariant depth == 0 ==> nextId == Some(targetId) && newer == issue.reportedAt
      decreases MAX_DEPTH - depth
    {
      if nextId.value in visited {
        NotLinkable(issues, issueId, targetId);
        return Err(Cycle);
      }
      if depth >= MAX_DEPTH {
        NotLinkable(issues, issueId, targetId);
        return Err(ReviewRequired);
      }
      visited := visited + {nextId.value};
      if || nextId.value !in issues || issues[nextId.value].propertyId != issue.propertyId
         || issues[nextId.value].version < 1 || issues[nextId.value].reportedAt >= newer
         || (depth == 0 && issues[nextId.value].cancelled) {
        NotLinkable(issues, issueId, targetId);
        return Err(InvalidTarget);
      }
      newer := issues[nextId.value].reportedAt;
      nextId := issues[nextId.value].recurrenceOf;
      depth := depth + 1;
    }
    ghost var ids := EndsChain(issues, issue.propertyId, issue.reportedAt, Some(targetId), MAX_DEPTH);
    assert ChainFor(issues, issueId, targetId, ids);
    return Ok(());
  }

  lemma NotLinkable(issues: Issues, issueId: string, targetId: string)
    requires issueId in issues
    requires !Ends(issues, issues[issueId].propertyId, issues[issueId].reportedAt, Some(targetId), MAX_DEPTH)
             || (targetId in issues && issues[targetId].cancelled)
    ensures !Linkable(issues, issueId, targetId)
  {
    if Linkable(issues, issueId, targetId) {
      var ids :| ChainFor(issues, issueId, targetId, ids);
      ChainEnds(issues, issues[issueId].propertyId, issues[issueId].reportedAt, ids, MAX_DEPTH);
    }
  }

  // ---------------------------------------------------------------- links over runs

  /** Every link goes to an earlier issue of the same property. */
  predicate LinksGoBack(issues: Issues) {
    forall id :: id in issues ==>
      && 1 <= issues[id].version
      && (issues[id].recurrenceOf.Some? ==>
            Earlier(issues, issues[id].recurrenceOf.value, issues[id].propertyId, issues[id].reportedAt))
  }

  /** Requests that change what the walk reads. */
  datatype Step =
    | Report(id: string, propertyId: string, reportedAt: int)
    | Link(issueId: string, targetId: string)
    | Unlink(id: string)
    | SetCancelled(id: string, cancelled: bool)

  ghost function Apply(issues: Issues, step: Step): Issues {
    match step
    case Report(id, propertyId, reportedAt) =>
      if id in issues then issues else issues[id := Node(propertyId, reportedAt, false, 1, None)]
    case Link(id, target) =>
      if id !in issues || issues[id].cancelled || !Linkable(issues, id, target) then issues
      else issues[id := issues[id].(recurrenceOf := Some(target), version := issues[id].version + 1)]
    case Unlink(id) =>
      if id !in issues || issues[id].cancelled then issues
      else issues[id := issues[id].(recurrenceOf := None, version := issues[id].version + 1)]
    case SetCancelled(id, cancelled) =>
      if id !in issues then issues
      else issues[id := issues[id].(cancelled := cancelled, version := issues[id].version + 1)]
  }

  ghost function Run(issues: Issues, steps: seq<Step>): Issues
    decreases |steps|
  {
    if steps == [] then issues else Run(Apply(issues, steps[0]), steps[1..])
  }

  lemma StepKeeps(issues: Issues, step: Step)
    requires LinksGoBack(issues)
    ensures LinksGoBack(Apply(issues, step))
  {
    if step.Link? && step.issueId in issues && Linkable(issues, step.issueId, step.targetId) {
      var ids :| ChainFor(issues, step.issueId, step.targetId, ids);
    }
  }

  lemma {:induction false} RunKeeps(issues: Issues, steps: seq<Step>)
    requires LinksGoBack(issues)
    ensures LinksGoBack(Run(issues, steps))
    decreases |steps|
  {
    if steps != [] {
      StepKeeps(issues, steps[0]);
      RunKeeps(Apply(issues, steps[0]), steps[1..]);
    }
  }

  /** A walk along stored links. */
  predicate IsPath(issues: Issues, ids: seq<string>) {
    && (forall k :: 0 <= k < |ids| ==> ids[k] in issues)
    && (forall k :: 0 <= k < |ids| - 1 ==> issues[ids[k]].recurrenceOf == Some(ids[k + 1]))
  }

  lemma {:induction false} PathGoesBack(issues: Issues, ids: seq<string>, k: nat)
    requires LinksGoBack(issues) && IsPath(issues, ids) && 0 < k < |ids|
    ensures issues[ids[k]].reportedAt < issues[ids[0]].reportedAt
    ensures issues[ids[k]].propertyId == issues[ids[0]].propertyId
  {
    assert issues[ids[k - 1]].recurrenceOf == Some(ids[k - 1 + 1]);
    if k > 1 {
      PathGoesBack(issues, ids, k - 1);
    }
  }

  /** After any run, following links never comes back to where it started, and stays
      within one property. */
  lemma LinksStayAcyclic(issues: Issues, steps: seq<Step>, ids: seq<string>)
    requires LinksGoBack(issues) && IsPath(Run(issues, steps), ids) && 2 <= |ids|
    ensures ids[0] != ids[|ids| - 1]
    ensures Run(issues, steps)[ids[|ids| - 1]].propertyId == Run(issues, steps)[ids[0]].propertyId
    ensures Run(issues, steps)[ids[|ids| - 1]].reportedAt < Run(issues, steps)[ids[0]].reportedAt
  {
    RunKeeps(issues, steps);
    PathGoesBack(Run(issues, steps), ids, |ids| - 1);
  }

  /** The links of a target within so many steps; a cut-off when it takes more. */
  predicate ShortTail(issues: Issues, next: Option<string>, steps: nat)
    decreases steps
  {
    next.None? || (steps > 0 && next.value in issues && ShortTail(issues, issues[next.value].recurrenceOf, steps - 1))
  }

  lemma {:induction false} TailEnds(issues: Issues, propertyId: string, newer: int, next: Option<string>, steps: nat)
    requires LinksGoBack(issues) && (next.Some? ==> Earlier(issues, next.value, propertyId, newer))
    ensures Ends(issues, propertyId, newer, next, steps) <==> ShortTail(issues, next, steps)
    decreases steps
  {
    if next.Some? && steps > 0 {
      var node := issues[next.value];
      TailEnds(issues, propertyId, node.reportedAt, node.recurrenceOf, steps - 1);
    }
  }

  /** On links that the program made itself, a target is refused only for being
      cancelled, of another property, not earlier, or too far from the first
      issue of its chain. */
  lemma LinkableExactly(issues: Issues, issueId: string, targetId: string)
    requires LinksGoBack(issues) && issueId in issues
    ensures Linkable(issues, issueId, targetId) <==>
              && Earlier(issues, targetId, issues[issueId].propertyId, issues[issueId].reportedAt)
              && !issues[targetId].cancelled && ShortTail(issues, Some(targetId), MAX_DEPTH)
  {
    var property, newer := issues[issueId].propertyId, issues[issueId].reportedAt;
    if Linkable(issues, issueId, targetId) {
      var ids :| ChainFor(issues, issueId, targetId, ids);
      ChainEnds(issues, property, newer, ids, MAX_DEPTH);
      TailEnds(issues, property, newer, Some(targetId), MAX_DEPTH);
    }
    if Earlier(issues, targetId, property, newer) && !issues[targetId].cancelled
       && ShortTail(issues, Some(targetId), MAX_DEPTH) {
      TailEnds(issues, property, newer, Some(targetId), MAX_DEPTH);
      var ids := EndsChain(issues, property, newer, Some(targetId), MAX_DEPTH);
      assert ChainFor(issues, issueId, targetId, ids);
    }
  }
}
