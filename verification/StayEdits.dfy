/** What an administrator's edit makes of the stays, and when it is refused. */
module StayEdits {
  import opened Wrappers
  import opened Bookings

  /** Nobody else is in the house in that time; leaving when another arrives is no overlap. */
  predicate Vacant(stays: seq<Stay>, propertyId: string, checkInAt: int, checkOutAt: int, except: Option<string>) {
    forall s :: s in stays && s.active && s.propertyId == propertyId && Some(s.id) != except ==>
      checkOutAt <= s.checkInAt || s.checkOutAt <= checkInAt
  }

  predicate OpenHouse(properties: map<string, bool>, propertyId: string) {
    propertyId in properties && properties[propertyId]
  }

  /** The number of a stay's revision goes up by one; it stays the same stay. */
  predicate Revises(was: Stay, now: Stay, expected: int) {
    now.id == was.id && now.propertyId == was.propertyId && was.revision == expected && now.revision == expected + 1
  }

  predicate SameTimes(was: Stay, now: Stay) {
    now.checkInAt == was.checkInAt && now.checkOutAt == was.checkOutAt
  }

  /** The new times of an update: those given, else those before. */
  predicate Takes(was: Stay, edit: Edit, checkInAt: int, checkOutAt: int)
    requires edit.Update?
  {
    && checkInAt == (if edit.newCheckInAt.Some? then edit.newCheckInAt.value else was.checkInAt)
    && checkOutAt == (if edit.newCheckOutAt.Some? then edit.newCheckOutAt.value else was.checkOutAt)
  }

  /** A new stay is added exactly to an open, vacant house, with what was given. */
  lemma CreateMeans(stays: seq<Stay>, properties: map<string, bool>, edit: Edit)
    requires edit.Create? && !Taken(stays, edit.id)
    ensures var after := Apply(stays, properties, edit);
            if && edit.checkInAt < edit.checkOutAt && OpenHouse(properties, edit.propertyId)
               && Vacant(stays, edit.propertyId, edit.checkInAt, edit.checkOutAt, None)
            then && |after| == |stays| + 1 && after[..|stays|] == stays
                 && (var stay := after[|stays|];
                     && stay.id == edit.id && stay.propertyId == edit.propertyId && stay.guest == edit.guest
                     && stay.checkInAt == edit.checkInAt && stay.checkOutAt == edit.checkOutAt
                     && stay.active && stay.revision == 1)
            else after == stays
  {
    assert Vacant(stays, edit.propertyId, edit.checkInAt, edit.checkOutAt, None)
           <==> Available(stays, edit.propertyId, edit.checkInAt, edit.checkOutAt, None);
  }

  /** When an edit of this stay goes through, and what it leaves of the stay. */
  ghost predicate Edits(stays: seq<Stay>, properties: map<string, bool>, was: Stay, edit: Edit, r: Option<Stay>) {
    match edit
    case Create(_, _, _, _, _) => r.None?
    case Update(id, expected, guest, newIn, newOut) =>
      exists from, till ::
        && Takes(was, edit, from, till)
        && (r.Some? <==>
              && was.revision == expected && was.active && from < till
              && ((from == was.checkInAt && till == was.checkOutAt)
                  || (OpenHouse(properties, was.propertyId) && Vacant(stays, was.propertyId, from, till, Some(id)))))
        && (r.Some? ==> && Revises(was, r.value, expected) && r.value.guest == guest && r.value.active
                        && r.value.checkInAt == from && r.value.checkOutAt == till)
    case Cancel(_, expected) =>
      && (r.Some? <==> was.revision == expected && was.active)
      && (r.Some? ==> && Revises(was, r.value, expected) && !r.value.active && r.value.guest == was.guest
                      && SameTimes(was, r.value))
    case Restore(id, expected) =>
      && (r.Some? <==> && was.revision == expected && !was.active && was.checkInAt < was.checkOutAt
                       && OpenHouse(properties, was.propertyId)
                       && Vacant(stays, was.propertyId, was.checkInAt, was.checkOutAt, Some(id)))
      && (r.Some? ==> && Revises(was, r.value, expected) && r.value.active && r.value.guest == was.guest
                      && SameTimes(was, r.value))
  }

  lemma EditedMeans(stays: seq<Stay>, properties: map<string, bool>, was: Stay, edit: Edit)
    ensures Edits(stays, properties, was, edit, Edited(stays, properties, was, edit))
  {
    if edit.Update? {
      var from := if edit.newCheckInAt.Some? then edit.newCheckInAt.value else was.checkInAt;
      var till := if edit.newCheckOutAt.Some? then edit.newCheckOutAt.value else was.checkOutAt;
      assert Takes(was, edit, from, till);
      assert Vacant(stays, was.propertyId, from, till, Some(edit.id))
             <==> Available(stays, was.propertyId, from, till, Some(edit.id));
    } else if edit.Restore? {
      assert Vacant(stays, was.propertyId, was.checkInAt, was.checkOutAt, Some(edit.id))
             <==> Available(stays, was.propertyId, was.checkInAt, was.checkOutAt, Some(edit.id));
    }
  }

  /** An edit reaches the one stay with its id and no other. */
  lemma EditReaches(stays: seq<Stay>, properties: map<string, bool>, edit: Edit, k: nat)
    requires UniqueIds(stays) && !edit.Create? && k < |stays|
    ensures var after := Apply(stays, properties, edit);
            && |after| == |stays|
            && if stays[k].id != edit.id then after[k] == stays[k]
               else exists r :: && Edits(stays, properties, stays[k], edit, r)
                                && after[k] == if r.Some? then r.value else stays[k]
  {
    if stays[k].id == edit.id {
      assert IndexOf(stays, edit.id) == k;
      EditedMeans(stays, properties, stays[k], edit);
      assert Edits(stays, properties, stays[k], edit, Edited(stays, properties, stays[k], edit));
    }
  }
}
