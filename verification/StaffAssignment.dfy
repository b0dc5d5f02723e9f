/** Who works at a property: assignments, the property's staff QR code, and the
    handover that comes with a deactivation. */
module StaffAssignment {
  import opened Wrappers

  datatype Role = AdminRole | StaffRole | GuestRole

  datatype User = User(role: Role, active: bool, updatedAt: int)

  datatype Property = Property(active: bool, staff: Option<string>, staffQr: Option<string>, qrRotatedAt: Option<int>,
                               updatedAt: int)

  /** A checklist, open or no longer, with its private link if it has one. */
  datatype Draft = Draft(author: string, propertyId: string, maintenance: bool, open: bool, token: Option<string>)

  /** Where and under whom a staff QR code was issued. */
  datatype Issue = Issue(propertyId: string, staff: Option<string>)

  /** The tables, and a record of every staff QR code ever issued. */
  datatype State = State(users: map<string, User>, properties: map<string, Property>, drafts: map<string, Draft>,
                         issued: map<string, Issue>)

  datatype StaffError =
    | StaffNotFound | StaffInactive | DeactivationRequired | PropertyNotFound | PropertyInactive | StaleQr
    | OperationRefused | AlreadyInactive | HandoverChanged | AssignmentsInvalid | ReplacementUnavailable
    | Unauthorized | AccessRefused | StaleDraft

  predicate ActiveStaff(users: map<string, User>, id: string) {
    id in users && users[id].role == StaffRole && users[id].active
  }

  // ---------------------------------------------------------------- single requests

  function Rotated(p: Property, now: int): int {
    Max(now, (if p.qrRotatedAt.Some? then p.qrRotatedAt.value else 0) + 1)
  }

  function Stamp(updatedAt: int, now: int): int {
    Max(now, updatedAt + 1)
  }

  /** A change of worker revokes the code, whose copies would follow the property. */
  function Reassigned(p: Property, staff: Option<string>, now: int): Property {
    var touched := p.(staff := staff, updatedAt := Stamp(p.updatedAt, now));
    if p.staff == staff then touched else touched.(staffQr := None, qrRotatedAt := Some(Rotated(p, now)))
  }

  function Assigned(s: State, propertyId: string, staff: Option<string>, now: int): Result<State, StaffError> {
    if propertyId !in s.properties then Err(PropertyNotFound)
    else if staff.Some? && !s.properties[propertyId].active then Err(PropertyInactive)
    else if staff.Some? && (staff.value !in s.users || s.users[staff.value].role != StaffRole) then Err(StaffNotFound)
    else if staff.Some? && !s.users[staff.value].active then Err(StaffInactive)
    else Ok(s.(properties := s.properties[propertyId := Reassigned(s.properties[propertyId], staff, now)]))
  }

  /** Issues a new staff code in place of the one the caller has seen. */
  function QrRotated(s: State, propertyId: string, expected: Option<int>, hash: string, now: int)
      : Result<State, StaffError> {
    if propertyId !in s.properties then Err(PropertyNotFound)
    else
      var p := s.properties[propertyId];
      if !p.active then Err(PropertyInactive)
      else if p.qrRotatedAt != expected then Err(StaleQr)
      else
        Ok(s.(properties := s.properties[propertyId := p.(staffQr := Some(hash), qrRotatedAt := Some(Rotated(p, now)),
                                                          updatedAt := Stamp(p.updatedAt, now))],
              issued := s.issued[hash := Issue(propertyId, p.staff)]))
  }

  function StaffUpdated(s: State, id: string, active: Option<bool>, now: int): Result<State, StaffError> {
    if id !in s.users || s.users[id].role != StaffRole then Err(StaffNotFound)
    else if active == Some(false) && s.users[id].active then Err(DeactivationRequired)
    else
      var u := s.users[id];
      Ok(s.(users := s.users[id := u.(active := if active.Some? then active.value else u.active,
                                      updatedAt := Stamp(u.updatedAt, now))]))
  }

  function StaffCreated(s: State, id: string, now: int): Result<State, StaffError> {
    Ok(s.(users := s.users[id := User(StaffRole, true, now)]))
  }

  /** `allowed` is the check of the stays that a closing or opening depends on. */
  function PropertyUpdated(s: State, id: string, active: Option<bool>, allowed: bool, now: int)
      : Result<State, StaffError> {
    if id !in s.properties then Err(PropertyNotFound)
    else if active.Some? && !allowed then Err(OperationRefused)
    else
      var p := s.properties[id];
      Ok(s.(properties := s.properties[id := p.(active := if active.Some? then active.value else p.active,
                                                updatedAt := Stamp(p.updatedAt, now))]))
  }

  function PropertyCreated(s: State, id: string, now: int): Result<State, StaffError> {
    Ok(s.(properties := s.properties[id := Property(true, None, None, None, now)]))
  }

  /** The worker behind a property's live code. */
  function Worker(s: State, propertyId: string, hash: string): Option<string> {
    if propertyId !in s.properties || !s.properties[propertyId].active then None
    else
      var p := s.properties[propertyId];
      if p.staffQr == Some(hash) && p.staff.Some? && ActiveStaff(s.users, p.staff.value) then p.staff else None
  }

  /** The worker opens a maintenance checklist, goes on with the open one, or -- when
      that is someone else's -- puts a new one in its place. */
  function DraftStarted(s: State, current: Option<string>, draftId: string, propertyId: string, hash: string,
                        token: string): Result<State, StaffError> {
    var worker, begun := Worker(s, propertyId, hash), s.drafts;
    if worker.None? || draftId in s.drafts then Err(AccessRefused)
    else
      var started := Draft(worker.value, propertyId, true, true, Some(token));
      if current.None? then Ok(s.(drafts := begun[draftId := started]))
      else if !(current.value in begun && begun[current.value].propertyId == propertyId
                && begun[current.value].maintenance && begun[current.value].open) then Err(StaleDraft)
      else
        var d := begun[current.value];
        if d.author == worker.value then Ok(s.(drafts := begun[current.value := d.(token := Some(token))]))
        else Ok(s.(drafts := begun[current.value := d.(open := false, token := None)][draftId := started]))
  }

  /** A submitted checklist keeps its link, for its receipt. */
  function DraftSubmitted(s: State, draftId: string): Result<State, StaffError> {
    if !(draftId in s.drafts && s.drafts[draftId].open && s.drafts[draftId].token.Some?) then Err(AccessRefused)
    else Ok(s.(drafts := s.drafts[draftId := s.drafts[draftId].(open := false)]))
  }

  // ---------------------------------------------------------------- the handover

  function PropertiesOf(s: State, id: string): map<string, Property> {
    map p | p in s.properties && s.properties[p].staff == Some(id) :: s.properties[p]
  }

  predicate HoldsLink(d: Draft, id: string) {
    d.author == id && d.maintenance && d.token.Some?
  }

  function LinksOf(s: State, id: string): map<string, Draft> {
    map d | d in s.drafts && HoldsLink(s.drafts[d], id) :: s.drafts[d]
  }

  /** What the administrator saw; its digest is injective. */
  datatype Seen = Seen(staff: User, properties: map<string, Property>, links: map<string, Draft>)

  function SeenNow(s: State, id: string): Seen
    requires id in s.users
  {
    Seen(s.users[id], PropertiesOf(s, id), LinksOf(s, id))
  }

  datatype Assignment = Assignment(propertyId: string, replacement: Option<string>)

  function Requested(assignments: seq<Assignment>): map<string, Option<string>> {
    if assignments == [] then map[]
    else
      var last := assignments[|assignments| - 1];
      Requested(assignments[..|assignments| - 1])[last.propertyId := last.replacement]
  }

  /** Every property of the worker is named once: one in use with another worker, a
      closed one with nobody. */
  predicate CoversProperties(properties: map<string, Property>, assignments: seq<Assignment>, id: string) {
    var requested := Requested(assignments);
    && |requested| == |assignments| && |requested| == |properties|
    && forall p :: p in properties ==>
         p in requested
         && (if properties[p].active then requested[p].Some? && requested[p] != Some(id) else requested[p].None?)
  }

  predicate ReplacementsAvailable(users: map<string, User>, requested: map<string, Option<string>>) {
    forall p :: p in requested && requested[p].Some? ==> ActiveStaff(users, requested[p].value)
  }

  function HandedOver(p: Property, replacement: Option<string>, now: int): Property {
    p.(staff := replacement, staffQr := None, qrRotatedAt := Some(Rotated(p, now)),
       updatedAt := Stamp(p.updatedAt, now))
  }

  function HandoverRefusal(s: State, id: string, seen: Seen, assignments: seq<Assignment>, adminActive: bool)
      : Option<StaffError> {
    if id !in s.users || s.users[id].role != StaffRole then Some(StaffNotFound)
    else if !s.users[id].active then Some(AlreadyInactive)
    else if seen != SeenNow(s, id) then Some(HandoverChanged)
    else if !CoversProperties(PropertiesOf(s, id), assignments, id) then Some(AssignmentsInvalid)
    else if !ReplacementsAvailable(s.users, Requested(assignments)) then Some(ReplacementUnavailable)
    else if !adminActive then Some(Unauthorized)
    else None
  }

  function Deactivated(s: State, id: string, seen: Seen, assignments: seq<Assignment>, adminActive: bool, now: int)
      : Result<State, StaffError> {
    var refusal := HandoverRefusal(s, id, seen, assignments, adminActive);
    if refusal.Some? then Err(refusal.value)
    else
      var at, requested := Stamp(s.users[id].updatedAt, now), Requested(assignments);
      Ok(State(s.users[id := s.users[id].(active := false, updatedAt := at)],
               map p | p in s.properties ::
                 if s.properties[p].staff == Some(id) && p in requested
                 then HandedOver(s.properties[p], requested[p], at) else s.properties[p],
               map d | d in s.drafts ::
                 if HoldsLink(s.drafts[d], id) then s.drafts[d].(token := None) else s.drafts[d],
               s.issued))
  }

  class StaffTables {
    var users: map<string, User>
    var properties: map<string, Property>
    var drafts: map<string, Draft>
    ghost var issued: map<string, Issue>

    ghost function Tables(): State
      reads this
    {
      State(users, properties, drafts, issued)
    }

    method AssignStaff(propertyId: string, staff: Option<string>, now: int) returns (r: Result<(), StaffError>)
      modifies this`properties
      ensures match Assigned(old(Tables()), propertyId, staff, now)
              case Ok(next) => r.Ok? && Tables() == next
              case Err(error) => r == Err(error) && Tables() == old(Tables())
    {
      if propertyId !in properties {
        return Err(PropertyNotFound);
      }
      var p := properties[propertyId];
      if staff.Some? {
        if !p.active {
          return Err(PropertyInactive);
        }
        if staff.value !in users || users[staff.value].role != StaffRole {
          return Err(StaffNotFound);
        }
        if !users[staff.value].active {
          return Err(StaffInactive);
        }
      }
      var next := p.(staff := staff, updatedAt := Stamp(p.updatedAt, now));
      if p.staff != staff {
        next := next.(staffQr := None, qrRotatedAt := Some(Rotated(p, now)));
      }
      properties := properties[propertyId := next];
      return Ok(());
    }

    method RotatePropertyQr(propertyId: string, expected: Option<int>, hash: string, now: int)
      returns (r: Result<(), StaffError>)
      modifies this`properties, this`issued
      ensures match QrRotated(old(Tables()), propertyId, expected, hash, now)
              case Ok(next) => r.Ok? && Tables() == next
              case Err(error) => r == Err(error) && Tables() == old(Tables())
    {
      if propertyId !in properties {
        return Err(PropertyNotFound);
      }
      var p := properties[propertyId];
      if !p.active {
        return Err(PropertyInactive);
      }
      if p.qrRotatedAt != expected {
        return Err(StaleQr);
      }
      properties := properties[propertyId := p.(staffQr := Some(hash), qrRotatedAt := Some(Rotated(p, now)),
                                                updatedAt := Stamp(p.updatedAt, now))];
      issued := issued[hash := Issue(propertyId, p.staff)];
      return Ok(());
    }

    method UpdateStaff(id: string, active: Option<bool>, now: int) returns (r: Result<(), StaffError>)
      modifies this`users
      ensures match StaffUpdated(old(Tables()), id, active, now)
              case Ok(next) => r.Ok? && Tables() == next
              case Err(error) => r == Err(error) && Tables() == old(Tables())
    {
      if id !in users || users[id].role != StaffRole {
        return Err(StaffNotFound);
      }
      if active == Some(false) && users[id].active {
        return Err(DeactivationRequired);
      }
      users := users[id := users[id].(active := if active.Some? then active.value else users[id].active,
                                      updatedAt := Stamp(users[id].updatedAt, now))];
      return Ok(());
    }

    /** Gives each of these properties to its replacement. */
    method HandOver(mine: set<string>, requested: map<string, Option<string>>, at: int)
      requires forall p :: p in mine ==> p in properties && p in requested
      modifies this`properties
      ensures properties == map p | p in old(properties) ::
                if p in mine && p in requested then HandedOver(old(properties)[p], requested[p], at)
                else old(properties)[p]
    {
      ghost var was := properties;
      var left := mine;
      while left != {}
        invariant left <= mine && properties.Keys == was.Keys
        invariant forall p :: p in was ==>
                    properties[p] == if p in mine - left && p in requested then HandedOver(was[p], requested[p], at)
                                     else was[p]
        decreases |left|
      {
        var p :| p in left;
        properties := properties[p := HandedOver(properties[p], requested[p], at)];
        left := left - {p};
      }
    }

    /** Hands over every property of the worker, revokes the worker's links, and then
        deactivates the worker. */
    method Deactivate(id: string, seen: Seen, assignments: seq<Assignment>, adminActive: bool, now: int)
      returns (r: Result<(), StaffError>)
      modifies this`users, this`properties, this`drafts
      ensures match Deactivated(old(Tables()), id, seen, assignments, adminActive, now)
              case Ok(next) => r.Ok? && Tables() == next
              case Err(error) => r == Err(error) && Tables() == old(Tables())
    {
      var s := State(users, properties, drafts, map[]);
      if id !in users || users[id].role != StaffRole {
        return Err(StaffNotFound);
      }
      if !users[id].active {
        return Err(AlreadyInactive);
      }
      SeenIgnoresIssued(Tables(), s, id);
      if seen != SeenNow(s, id) {
        return Err(HandoverChanged);
      }
      var mine := PropertiesOf(s, id);
      if !CoversProperties(mine, assignments, id) {
        return Err(AssignmentsInvalid);
      }
      var requested := Requested(assignments);
      if !ReplacementsAvailable(users, requested) {
        return Err(ReplacementUnavailable);
      }
      if !adminActive {
        return Err(Unauthorized);
      }
      var at := Max(now, users[id].updatedAt + 1);
      HandOver(mine.Keys, requested, at);
      drafts := map d | d in drafts :: if HoldsLink(drafts[d], id) then drafts[d].(token := None) else drafts[d];
      users := users[id := users[id].(active := false, updatedAt := at)];
      return Ok(());
    }
  }

  lemma SeenIgnoresIssued(a: State, b: State, id: string)
    requires a.users == b.users && a.properties == b.properties && a.drafts == b.drafts && id in a.users
    ensures SeenNow(a, id) == SeenNow(b, id) && PropertiesOf(a, id) == PropertiesOf(b, id)
  {
  }

  // ---------------------------------------------------------------- what every request keeps

  predicate PropertySound(s: State, id: string)
    requires id in s.properties
  {
    var p := s.properties[id];
    && (p.staff.Some? ==> ActiveStaff(s.users, p.staff.value))
    && (p.staffQr.Some? ==> p.staffQr.value in s.issued && s.issued[p.staffQr.value] == Issue(id, p.staff))
  }

  /** Every assigned id names an active worker, a live staff code was issued there
      under the current assignment, and only active workers hold maintenance links. */
  ghost predicate Sound(s: State) {
    && (forall id {:trigger PropertySound(s, id)} :: id in s.properties ==> PropertySound(s, id))
    && (forall d :: d in s.drafts && s.drafts[d].maintenance && s.drafts[d].token.Some? ==>
          ActiveStaff(s.users, s.drafts[d].author))
  }

  datatype Step =
    | CreateStaff(id: string, now: int)
    | UpdateStaff(id: string, active: Option<bool>, now: int)
    | AssignStaff(propertyId: string, staff: Option<string>, now: int)
    | RotateQr(propertyId: string, expected: Option<int>, hash: string, now: int)
    | UpdateProperty(propertyId: string, active: Option<bool>, allowed: bool, now: int)
    | CreateProperty(propertyId: string, now: int)
    | StartDraft(current: Option<string>, draftId: string, propertyId: string, hash: string, token: string)
    | SubmitDraft(draftId: string)
    | Deactivate(id: string, seen: Seen, assignments: seq<Assignment>, adminActive: bool, now: int)

  function Outcome(s: State, step: Step): Result<State, StaffError> {
    match step
    case CreateStaff(id, now) => StaffCreated(s, id, now)
    case UpdateStaff(id, active, now) => StaffUpdated(s, id, active, now)
    case AssignStaff(propertyId, staff, now) => Assigned(s, propertyId, staff, now)
    case RotateQr(propertyId, expected, hash, now) => QrRotated(s, propertyId, expected, hash, now)
    case UpdateProperty(propertyId, active, allowed, now) => PropertyUpdated(s, propertyId, active, allowed, now)
    case CreateProperty(propertyId, now) => PropertyCreated(s, propertyId, now)
    case StartDraft(current, draftId, propertyId, hash, token) =>
      DraftStarted(s, current, draftId, propertyId, hash, token)
    case SubmitDraft(draftId) => DraftSubmitted(s, draftId)
    case Deactivate(id, seen, assignments, adminActive, now) =>
      Deactivated(s, id, seen, assignments, adminActive, now)
  }

  function Apply(s: State, step: Step): State {
    match Outcome(s, step)
    case Ok(next) => next
    case Err(_) => s
  }

  /** Ids and codes are drawn fresh. */
  predicate Fresh(s: State, step: Step) {
    && (step.CreateStaff? ==> step.id !in s.users)
    && (step.CreateProperty? ==> step.propertyId !in s.properties)
    && (step.RotateQr? ==> step.hash !in s.issued)
  }

  lemma {:induction false} RequestedIsSmall(assignments: seq<Assignment>)
    ensures |Requested(assignments)| <= |assignments|
  {
    if assignments != [] {
      RequestedIsSmall(assignments[..|assignments| - 1]);
    }
  }

  lemma HandoverKeeps(s: State, step: Step)
    requires Sound(s) && step.Deactivate? && Outcome(s, step).Ok?
    ensures Sound(Apply(s, step))
  {
    var next := Apply(s, step);
    var requested := Requested(step.assignments);
    forall id | id in next.properties ensures PropertySound(next, id) {
      assert PropertySound(s, id);
      if s.properties[id].staff == Some(step.id) {
        assert id in PropertiesOf(s, step.id);
      }
    }
    forall d | d in next.drafts && next.drafts[d].maintenance && next.drafts[d].token.Some?
      ensures ActiveStaff(next.users, next.drafts[d].author)
    {
      assert !HoldsLink(s.drafts[d], step.id);
    }
  }

  lemma StepKeeps(s: State, step: Step)
    requires Sound(s) && Fresh(s, step)
    ensures Sound(Apply(s, step))
  {
    var next := Apply(s, step);
    if step.Deactivate? {
      if Outcome(s, step).Ok? {
        HandoverKeeps(s, step);
      }
    } else {
      forall id | id in next.properties ensures PropertySound(next, id) {
        assert id in s.properties ==> PropertySound(s, id);
      }
    }
  }

  function Run(s: State, steps: seq<Step>): State
    decreases |steps|
  {
    if steps == [] then s else Run(Apply(s, steps[0]), steps[1..])
  }

  predicate AllFresh(s: State, steps: seq<Step>)
    decreases |steps|
  {
    steps == [] || (Fresh(s, steps[0]) && AllFresh(Apply(s, steps[0]), steps[1..]))
  }

  lemma {:induction false} RunKeeps(s: State, steps: seq<Step>)
    requires Sound(s) && AllFresh(s, steps)
    ensures Sound(Run(s, steps))
    decreases |steps|
  {
    if steps != [] {
      StepKeeps(s, steps[0]);
      RunKeeps(Apply(s, steps[0]), steps[1..]);
    }
  }

  // ---------------------------------------------------------------- codes do not come back

  predicate Live(s: State, hash: string) {
    exists id :: id in s.properties && s.properties[id].staffQr == Some(hash)
  }

  lemma StepRevivesNothing(s: State, step: Step, hash: string)
    requires Fresh(s, step) && hash in s.issued && Live(Apply(s, step), hash)
    ensures Live(s, hash) && hash in Apply(s, step).issued && Apply(s, step).issued[hash] == s.issued[hash]
  {
    var next := Apply(s, step);
    var id :| id in next.properties && next.properties[id].staffQr == Some(hash);
    assert id in s.properties && s.properties[id].staffQr == Some(hash);
  }

  lemma StepKeepsIssued(s: State, step: Step, hash: string)
    requires Fresh(s, step) && hash in s.issued
    ensures hash in Apply(s, step).issued && Apply(s, step).issued[hash] == s.issued[hash]
  {
  }

  /** A code that went out of use never works again -- not when its worker comes back
      to the property, nor when the worker is made active again. */
  lemma {:induction false} RevokedStaysRevoked(s: State, steps: seq<Step>, hash: string)
    requires AllFresh(s, steps) && hash in s.issued && !Live(s, hash)
    ensures !Live(Run(s, steps), hash)
    decreases |steps|
  {
    if steps != [] {
      StepKeepsIssued(s, steps[0], hash);
      if Live(Apply(s, steps[0]), hash) {
        StepRevivesNothing(s, steps[0], hash);
      }
      RevokedStaysRevoked(Apply(s, steps[0]), steps[1..], hash);
    }
  }

  lemma {:induction false} RunKeepsIssued(s: State, steps: seq<Step>, hash: string)
    requires AllFresh(s, steps) && hash in s.issued
    ensures hash in Run(s, steps).issued && Run(s, steps).issued[hash] == s.issued[hash]
    decreases |steps|
  {
    if steps != [] {
      StepKeepsIssued(s, steps[0], hash);
      RunKeepsIssued(Apply(s, steps[0]), steps[1..], hash);
    }
  }

  /** Wherever a code still works, the worker is the one it was issued under. */
  lemma LiveCodeIsForItsWorker(s: State, steps: seq<Step>, hash: string, propertyId: string)
    requires Sound(s) && AllFresh(s, steps) && hash in s.issued
    requires propertyId in Run(s, steps).properties && Run(s, steps).properties[propertyId].staffQr == Some(hash)
    ensures s.issued[hash] == Issue(propertyId, Run(s, steps).properties[propertyId].staff)
  {
    RunKeeps(s, steps);
    RunKeepsIssued(s, steps, hash);
    assert PropertySound(Run(s, steps), propertyId);
  }

  /** After a deactivation the worker has no property, no live code and no link;
      every property in use went to the active worker it was requested for. */
  lemma DeactivationLeavesNothing(s: State, step: Step)
    requires Sound(s) && step.Deactivate? && Outcome(s, step).Ok?
    ensures var next := Apply(s, step);
            && !ActiveStaff(next.users, step.id)
            && (forall p :: p in next.properties ==> next.properties[p].staff != Some(step.id))
            && (forall d :: d in next.drafts ==> !HoldsLink(next.drafts[d], step.id))
            && (forall p :: p in s.properties && s.properties[p].staff == Some(step.id) ==>
                  && p in next.properties && next.properties[p].staffQr.None?
                  && next.properties[p].staff.Some? == s.properties[p].active
                  && (s.properties[p].active ==> ActiveStaff(next.users, next.properties[p].staff.value)))
            && (forall p :: p in s.properties && s.properties[p].staff != Some(step.id) ==>
                  p in next.properties && next.properties[p] == s.properties[p])
  {
    var next := Apply(s, step);
    forall p | p in s.properties && s.properties[p].staff == Some(step.id)
      ensures p in PropertiesOf(s, step.id) && p in Requested(step.assignments)
    {
    }
  }
}
