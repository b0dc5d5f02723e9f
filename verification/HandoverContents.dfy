/** What each request about workers, properties and their codes leaves behind, field by
    field, and why it is refused, told without the functions that compute it. */
module HandoverContents {
  import opened Wrappers
  import opened StaffAssignment

  // ---------------------------------------------------------------- stamps

  /** A new stamp: the clock, or just after the one before where that is later. */
  predicate Stamps(was: int, now: int, at: int) {
    was < at && now <= at && (at == now || at == was + 1)
  }

  predicate StampsCode(was: Option<int>, now: int, at: Option<int>) {
    at.Some? && Stamps(match was case Some(before) => before case None => 0, now, at.value)
  }

  /** Everything but one property, one user or one checklist is as it was. */
  predicate OnlyProperty(s: State, next: State, id: string) {
    && next.users == s.users && next.drafts == s.drafts && id in next.properties
    && next.properties.Keys == s.properties.Keys + {id}
    && forall other :: other in s.properties && other != id ==> next.properties[other] == s.properties[other]
  }

  predicate OnlyUser(s: State, next: State, id: string) {
    && next.properties == s.properties && next.drafts == s.drafts && next.issued == s.issued && id in next.users
    && next.users.Keys == s.users.Keys + {id}
    && forall other :: other in s.users && other != id ==> next.users[other] == s.users[other]
  }

  predicate IsWorker(s: State, id: string) {
    id in s.users && s.users[id].role == StaffRole
  }

  // ---------------------------------------------------------------- assignments and codes

  /** A property is given to an active worker, or to nobody, and a change of worker ends
      its code; the answer of a refusal is the first thing that is wrong. */
  lemma AssignMeans(s: State, id: string, staff: Option<string>, now: int)
    ensures match Assigned(s, id, staff, now)
            case Ok(next) =>
              && OnlyProperty(s, next, id) && next.issued == s.issued && id in s.properties
              && (var was, p := s.properties[id], next.properties[id];
                  && p.staff == staff && p.active == was.active && Stamps(was.updatedAt, now, p.updatedAt)
                  && (staff.Some? ==> was.active && ActiveStaff(s.users, staff.value))
                  && (if was.staff == staff then p.staffQr == was.staffQr && p.qrRotatedAt == was.qrRotatedAt
                      else p.staffQr.None? && StampsCode(was.qrRotatedAt, now, p.qrRotatedAt)))
            case Err(why) =>
              if id !in s.properties then why == PropertyNotFound
              else if staff.Some? && !s.properties[id].active then why == PropertyInactive
              else if staff.Some? && !IsWorker(s, staff.value) then why == StaffNotFound
              else why == StaffInactive && staff.Some? && !s.users[staff.value].active
  {
  }

  lemma RotateMeans(s: State, id: string, expected: Option<int>, hash: string, now: int)
    ensures match QrRotated(s, id, expected, hash, now)
            case Ok(next) =>
              && OnlyProperty(s, next, id) && id in s.properties
              && (var was, p := s.properties[id], next.properties[id];
                  && was.active && was.qrRotatedAt == expected && p.active && p.staff == was.staff
                  && p.staffQr == Some(hash) && StampsCode(was.qrRotatedAt, now, p.qrRotatedAt)
                  && Stamps(was.updatedAt, now, p.updatedAt)
                  && next.issued == s.issued[hash := Issue(id, was.staff)])
            case Err(why) =>
              if id !in s.properties then why == PropertyNotFound
              else if !s.properties[id].active then why == PropertyInactive
              else why == StaleQr && s.properties[id].qrRotatedAt != expected
  {
  }

  lemma UpdateStaffMeans(s: State, id: string, active: Option<bool>, now: int)
    ensures match StaffUpdated(s, id, active, now)
            case Ok(next) =>
              && OnlyUser(s, next, id) && IsWorker(s, id) && next.users[id].role == StaffRole
              && Stamps(s.users[id].updatedAt, now, next.users[id].updatedAt)
              && (if active.Some? then next.users[id].active == active.value
                  else next.users[id].active == s.users[id].active)
              && (s.users[id].active ==> next.users[id].active)
            case Err(why) =>
              if !IsWorker(s, id) then why == StaffNotFound
              else why == DeactivationRequired && active == Some(false) && s.users[id].active
  {
  }

  lemma UpdatePropertyMeans(s: State, id: string, active: Option<bool>, allowed: bool, now: int)
    ensures match PropertyUpdated(s, id, active, allowed, now)
            case Ok(next) =>
              && OnlyProperty(s, next, id) && next.issued == s.issued && id in s.properties
              && (var was, p := s.properties[id], next.properties[id];
                  && p.staff == was.staff && p.staffQr == was.staffQr && p.qrRotatedAt == was.qrRotatedAt
                  && Stamps(was.updatedAt, now, p.updatedAt) && (active.None? ==> p.active == was.active)
                  && (active.Some? ==> allowed && p.active == active.value))
            case Err(why) =>
              if id !in s.properties then why == PropertyNotFound
              else why == OperationRefused && active.Some? && !allowed
  {
  }

  /** A new worker is active; a new property is open, without a worker and without a code. */
  lemma CreateMeans(s: State, id: string, now: int)
    ensures StaffCreated(s, id, now).Ok? && PropertyCreated(s, id, now).Ok?
    ensures var next := StaffCreated(s, id, now).value;
            OnlyUser(s, next, id) && ActiveStaff(next.users, id) && next.users[id].updatedAt == now
    ensures var next := PropertyCreated(s, id, now).value;
            && OnlyProperty(s, next, id) && next.issued == s.issued
            && (var p := next.properties[id];
                p.active && p.staff.None? && p.staffQr.None? && p.qrRotatedAt.None? && p.updatedAt == now)
  {
  }

  // ---------------------------------------------------------------- checklists

  /** A code lets its worker in exactly where it is live at an open property and the worker
      is active. */
  lemma WorkerMeans(s: State, id: string, hash: string, worker: string)
    ensures Worker(s, id, hash) == Some(worker)
            <==> && id in s.properties && s.properties[id].active && s.properties[id].staffQr == Some(hash)
                 && s.properties[id].staff == Some(worker) && ActiveStaff(s.users, worker)
  {
  }

  predicate MayContinue(s: State, draftId: string, propertyId: string) {
    && draftId in s.drafts && s.drafts[draftId].propertyId == propertyId && s.drafts[draftId].maintenance
    && s.drafts[draftId].open
  }

  /** Starting opens a new checklist of the worker's, or gives the worker's own open one a
      new link; somebody else's open one ends without a link. */
  lemma DraftStartMeans(s: State, current: Option<string>, draftId: string, propertyId: string, hash: string,
                        token: string)
    ensures match DraftStarted(s, current, draftId, propertyId, hash, token)
            case Ok(next) =>
              && next == s.(drafts := next.drafts) && draftId !in s.drafts
              && Worker(s, propertyId, hash).Some?
              && (var worker := Worker(s, propertyId, hash).value;
                  var begun := Draft(worker, propertyId, true, true, Some(token));
                  match current
                  case None => next.drafts == s.drafts[draftId := begun]
                  case Some(id) =>
                    && MayContinue(s, id, propertyId)
                    && (if s.drafts[id].author == worker then next.drafts == s.drafts[id := begun]
                        else && next.drafts.Keys == s.drafts.Keys + {draftId} && next.drafts[draftId] == begun
                             && !next.drafts[id].open && next.drafts[id].token.None?
                             && next.drafts[id].author == s.drafts[id].author
                             && forall d :: d in s.drafts && d != id ==> next.drafts[d] == s.drafts[d]))
            case Err(why) =>
              if Worker(s, propertyId, hash).None? || draftId in s.drafts then why == AccessRefused
              else why == StaleDraft && current.Some? && !MayContinue(s, current.value, propertyId)
  {
  }

  lemma DraftSubmitMeans(s: State, draftId: string)
    ensures match DraftSubmitted(s, draftId)
            case Ok(next) =>
              && next == s.(drafts := next.drafts) && next.drafts.Keys == s.drafts.Keys && draftId in s.drafts
              && s.drafts[draftId].open && s.drafts[draftId].token.Some? && !next.drafts[draftId].open
              && next.drafts[draftId].token == s.drafts[draftId].token
              && next.drafts[draftId].author == s.drafts[draftId].author
              && next.drafts[draftId].maintenance == s.drafts[draftId].maintenance
              && next.drafts[draftId].propertyId == s.drafts[draftId].propertyId
              && forall d :: d in s.drafts && d != draftId ==> next.drafts[d] == s.drafts[d]
            case Err(why) =>
              why == AccessRefused && (draftId in s.drafts && s.drafts[draftId].open ==> s.drafts[draftId].token.None?)
  {
  }

  // ---------------------------------------------------------------- the handover

  predicate NamesEachOnce(assignments: seq<Assignment>) {
    forall i, j :: 0 <= i < j < |assignments| ==> assignments[i].propertyId != assignments[j].propertyId
  }

  predicate Named(assignments: seq<Assignment>, propertyId: string) {
    exists i :: 0 <= i < |assignments| && assignments[i].propertyId == propertyId
  }

  lemma NamedInFront(assignments: seq<Assignment>, propertyId: string)
    requires assignments != []
    ensures var front, last := assignments[..|assignments| - 1], assignments[|assignments| - 1];
            Named(assignments, propertyId) <==> Named(front, propertyId) || last.propertyId == propertyId
  {
    var front := assignments[..|assignments| - 1];
    if Named(front, propertyId) {
      var i :| 0 <= i < |front| && front[i].propertyId == propertyId;
      assert assignments[i].propertyId == propertyId;
    }
    if Named(assignments, propertyId) {
      var i :| 0 <= i < |assignments| && assignments[i].propertyId == propertyId;
      assert i < |front| ==> front[i].propertyId == propertyId;
    }
  }

  lemma {:induction false} RequestedNames(assignments: seq<Assignment>)
    ensures forall p :: p in Requested(assignments) <==> Named(assignments, p)
  {
    if assignments != [] {
      RequestedNames(assignments[..|assignments| - 1]);
      forall p ensures p in Requested(assignments) <==> Named(assignments, p) {
        NamedInFront(assignments, p);
      }
    }
  }

  lemma {:induction false} RequestedCounts(assignments: seq<Assignment>)
    ensures |Requested(assignments)| <= |assignments|
    ensures |Requested(assignments)| == |assignments| <==> NamesEachOnce(assignments)
  {
    if assignments != [] {
      var front, last := assignments[..|assignments| - 1], assignments[|assignments| - 1];
      RequestedCounts(front);
      RequestedNames(front);
      NamesMore(assignments);
      assert Requested(assignments).Keys == Requested(front).Keys + {last.propertyId};
      assert |Requested(front)| == |Requested(front).Keys| && |Requested(assignments)| == |Requested(assignments).Keys|;
    }
  }

  lemma NamesMore(assignments: seq<Assignment>)
    requires assignments != []
    ensures var front, last := assignments[..|assignments| - 1], assignments[|assignments| - 1];
            NamesEachOnce(assignments) <==> NamesEachOnce(front) && !Named(front, last.propertyId)
  {
    var front, last := assignments[..|assignments| - 1], assignments[|assignments| - 1];
    if Named(front, last.propertyId) {
      var i :| 0 <= i < |front| && front[i].propertyId == last.propertyId;
      assert assignments[i].propertyId == assignments[|assignments| - 1].propertyId;
    } else {
      forall i | 0 <= i < |front| ensures assignments[i].propertyId != last.propertyId {
        assert front[i] == assignments[i];
      }
    }
  }

  lemma {:induction false} RequestedGives(assignments: seq<Assignment>, i: nat)
    requires NamesEachOnce(assignments) && i < |assignments|
    ensures var requested, a := Requested(assignments), assignments[i];
            a.propertyId in requested && requested[a.propertyId] == a.replacement
  {
    if i < |assignments| - 1 {
      RequestedGives(assignments[..|assignments| - 1], i);
    }
  }

  /** What the administrator saw of the worker, its properties and its links is current. */
  ghost predicate SawCurrent(s: State, id: string, seen: Seen)
    requires id in s.users
  {
    && seen.staff == s.users[id]
    && (forall p :: p in seen.properties <==> p in s.properties && s.properties[p].staff == Some(id))
    && (forall p :: p in seen.properties && p in s.properties ==> seen.properties[p] == s.properties[p])
    && (forall d :: d in seen.links
                    <==> && d in s.drafts && s.drafts[d].author == id
                         && s.drafts[d].maintenance && s.drafts[d].token.Some?)
    && (forall d :: d in seen.links && d in s.drafts ==> seen.links[d] == s.drafts[d])
  }

  /** Each property of the worker is named once and no other is: an open one with somebody
      else, a closed one with nobody. */
  predicate CoversAll(s: State, id: string, assignments: seq<Assignment>) {
    && NamesEachOnce(assignments)
    && (forall i :: 0 <= i < |assignments| ==> NamesOwn(s, id, assignments[i]))
    && forall p :: p in s.properties && s.properties[p].staff == Some(id) ==> Named(assignments, p)
  }

  predicate NamesOwn(s: State, id: string, a: Assignment) {
    && a.propertyId in s.properties && s.properties[a.propertyId].staff == Some(id)
    && if s.properties[a.propertyId].active then a.replacement.Some? && a.replacement != Some(id)
       else a.replacement.None?
  }

  predicate AllAvailable(s: State, assignments: seq<Assignment>) {
    forall i :: 0 <= i < |assignments| && assignments[i].replacement.Some? ==>
      ActiveStaff(s.users, assignments[i].replacement.value)
  }

  lemma SawCurrentIff(s: State, id: string, seen: Seen)
    requires id in s.users
    ensures seen == SeenNow(s, id) <==> SawCurrent(s, id, seen)
  {
    var now := SeenNow(s, id);
    if SawCurrent(s, id, seen) {
      assert seen.properties.Keys == now.properties.Keys && seen.links.Keys == now.links.Keys;
    }
  }

  /** As many different names as there are of the worker's properties, which are all among
      them, are those properties. */
  lemma CoversIff(s: State, id: string, assignments: seq<Assignment>)
    ensures CoversProperties(PropertiesOf(s, id), assignments, id) <==> CoversAll(s, id, assignments)
  {
    RequestedNames(assignments);
    RequestedCounts(assignments);
    if CoversProperties(PropertiesOf(s, id), assignments, id) {
      CoveredAll(s, id, assignments);
    }
    if CoversAll(s, id, assignments) {
      AllCovered(s, id, assignments);
    }
  }

  lemma CoveredAll(s: State, id: string, assignments: seq<Assignment>)
    requires CoversProperties(PropertiesOf(s, id), assignments, id) && NamesEachOnce(assignments)
    requires forall p :: p in Requested(assignments) <==> Named(assignments, p)
    ensures CoversAll(s, id, assignments)
  {
    var mine, requested := PropertiesOf(s, id), Requested(assignments);
    assert mine.Keys <= requested.Keys;
    SameKeys(mine.Keys, requested.Keys);
    forall i | 0 <= i < |assignments| ensures NamesOwn(s, id, assignments[i]) {
      RequestedGives(assignments, i);
      assert assignments[i].propertyId in mine.Keys;
    }
    forall p | p in s.properties && s.properties[p].staff == Some(id) ensures Named(assignments, p) {
      assert p in mine;
    }
  }

  lemma AllCovered(s: State, id: string, assignments: seq<Assignment>)
    requires CoversAll(s, id, assignments) && |Requested(assignments)| == |assignments|
    requires forall p :: p in Requested(assignments) <==> Named(assignments, p)
    ensures CoversProperties(PropertiesOf(s, id), assignments, id)
  {
    var mine, requested := PropertiesOf(s, id), Requested(assignments);
    forall p ensures p in mine.Keys <==> p in requested.Keys {
      if p in requested {
        var i :| 0 <= i < |assignments| && assignments[i].propertyId == p;
        assert NamesOwn(s, id, assignments[i]);
      }
    }
    assert mine.Keys == requested.Keys && |mine| == |mine.Keys| && |requested| == |requested.Keys|;
    forall p | p in mine
      ensures p in requested && if mine[p].active then requested[p].Some? && requested[p] != Some(id)
                                else requested[p].None?
    {
      var i :| 0 <= i < |assignments| && assignments[i].propertyId == p;
      assert NamesOwn(s, id, assignments[i]);
      RequestedGives(assignments, i);
    }
  }

  lemma SameKeys(a: set<string>, b: set<string>)
    requires a <= b && |a| == |b|
    ensures a == b
  {
    if x :| x in b && x !in a {
      assert a <= b - {x};
      Fewer(a, b - {x});
    }
  }

  lemma Fewer(a: set<string>, b: set<string>)
    requires a <= b
    ensures |a| <= |b|
  {
    assert b == a + (b - a);
  }

  lemma AvailableIff(s: State, assignments: seq<Assignment>)
    requires NamesEachOnce(assignments)
    ensures ReplacementsAvailable(s.users, Requested(assignments)) <==> AllAvailable(s, assignments)
  {
    var requested := Requested(assignments);
    RequestedNames(assignments);
    if AllAvailable(s, assignments) {
      forall p | p in requested && requested[p].Some? ensures ActiveStaff(s.users, requested[p].value) {
        var i :| 0 <= i < |assignments| && assignments[i].propertyId == p;
        RequestedGives(assignments, i);
      }
    }
    if ReplacementsAvailable(s.users, requested) {
      forall i | 0 <= i < |assignments| && assignments[i].replacement.Some?
        ensures ActiveStaff(s.users, assignments[i].replacement.value)
      {
        RequestedGives(assignments, i);
      }
    }
  }

  /** What a deactivation answers, and the first thing that is wrong when it is refused. */
  ghost predicate RefusedFor(s: State, id: string, seen: Seen, assignments: seq<Assignment>, adminActive: bool,
                             why: StaffError) {
    if !IsWorker(s, id) then why == StaffNotFound
    else if !s.users[id].active then why == AlreadyInactive
    else if !SawCurrent(s, id, seen) then why == HandoverChanged
    else if !CoversAll(s, id, assignments) then why == AssignmentsInvalid
    else if !AllAvailable(s, assignments) then why == ReplacementUnavailable
    else !adminActive && why == Unauthorized
  }

  /** Each of the worker's properties went to the one it was asked for, without a code; the
      worker's links are gone and the worker is inactive; everything else is as it was. */
  ghost predicate HandsOver(s: State, id: string, assignments: seq<Assignment>, now: int, next: State) {
    && OnlyUserIn(s, next, id) && IsWorker(s, id) && next.users[id].role == StaffRole && !next.users[id].active
    && Stamps(s.users[id].updatedAt, now, next.users[id].updatedAt) && next.issued == s.issued
    && next.properties.Keys == s.properties.Keys && next.drafts.Keys == s.drafts.Keys
    && (forall p :: p in s.properties && s.properties[p].staff != Some(id) ==>
          next.properties[p] == s.properties[p])
    && (forall i :: 0 <= i < |assignments| ==> Given(s, next, assignments[i], next.users[id].updatedAt))
    && (forall d :: d in s.drafts ==> next.drafts[d] == if HoldsLink(s.drafts[d], id)
                                                         then s.drafts[d].(token := None) else s.drafts[d])
  }

  predicate OnlyUserIn(s: State, next: State, id: string) {
    && id in next.users && next.users.Keys == s.users.Keys + {id}
    && forall other :: other in s.users && other != id ==> next.users[other] == s.users[other]
  }

  predicate Given(s: State, next: State, a: Assignment, at: int) {
    && a.propertyId in s.properties && a.propertyId in next.properties
    && (var was, p := s.properties[a.propertyId], next.properties[a.propertyId];
        && p.staff == a.replacement && p.active == was.active && p.staffQr.None?
        && StampsCode(was.qrRotatedAt, at, p.qrRotatedAt) && Stamps(was.updatedAt, at, p.updatedAt))
  }

  lemma HandedOverMeans(s: State, id: string, seen: Seen, assignments: seq<Assignment>, adminActive: bool, now: int)
    requires Deactivated(s, id, seen, assignments, adminActive, now).Ok?
    ensures HandsOver(s, id, assignments, now, Deactivated(s, id, seen, assignments, adminActive, now).value)
  {
    var next := Deactivated(s, id, seen, assignments, adminActive, now).value;
    CoversIff(s, id, assignments);
    forall i | 0 <= i < |assignments| ensures Given(s, next, assignments[i], next.users[id].updatedAt) {
      assert NamesOwn(s, id, assignments[i]);
      RequestedGives(assignments, i);
    }
  }

  /** A deactivation hands over exactly what was asked, or is refused for a reason. */
  lemma DeactivateMeans(s: State, id: string, seen: Seen, assignments: seq<Assignment>, adminActive: bool, now: int)
    ensures match Deactivated(s, id, seen, assignments, adminActive, now)
            case Ok(next) =>
              && HandsOver(s, id, assignments, now, next)
              && forall why :: !RefusedFor(s, id, seen, assignments, adminActive, why)
            case Err(why) => RefusedFor(s, id, seen, assignments, adminActive, why)
  {
    if IsWorker(s, id) {
      SawCurrentIff(s, id, seen);
      CoversIff(s, id, assignments);
      if CoversAll(s, id, assignments) {
        AvailableIff(s, assignments);
      }
    }
    if Deactivated(s, id, seen, assignments, adminActive, now).Ok? {
      HandedOverMeans(s, id, seen, assignments, adminActive, now);
    }
  }
}
