/** The stays of the properties, and the edits an administrator makes to one
    stay at a time. */
module Bookings {
  import opened Wrappers

  datatype Guest = Guest(name: string, company: Option<string>, department: Option<string>,
                         phone: Option<string>, notes: Option<string>)

  datatype Stay = Stay(id: string, propertyId: string, guest: Guest, checkInAt: int, checkOutAt: int,
                       active: bool, revision: int)

  predicate Overlap(aFrom: int, aTo: int, bFrom: int, bTo: int) {
    aFrom < bTo && bFrom < aTo
  }

  predicate Apart(a: Stay, b: Stay) {
    || !a.active || !b.active || a.propertyId != b.propertyId
    || !Overlap(a.checkInAt, a.checkOutAt, b.checkInAt, b.checkOutAt)
  }

  /** No property holds two active stays at once. */
  predicate NoDoubleBooking(stays: seq<Stay>) {
    forall i, j :: 0 <= i < j < |stays| ==> Apart(stays[i], stays[j])
  }

  predicate UniqueIds(stays: seq<Stay>) {
    forall i, j :: 0 <= i < j < |stays| ==> stays[i].id != stays[j].id
  }

  predicate Sound(stays: seq<Stay>) {
    UniqueIds(stays) && NoDoubleBooking(stays)
  }

  predicate Available(stays: seq<Stay>, propertyId: string, checkInAt: int, checkOutAt: int, except: Option<string>) {
    forall s :: s in stays && s.active && s.propertyId == propertyId && Some(s.id) != except ==>
      !Overlap(s.checkInAt, s.checkOutAt, checkInAt, checkOutAt)
  }

  predicate Taken(stays: seq<Stay>, id: string) {
    exists i :: 0 <= i < |stays| && stays[i].id == id
  }

  function IndexOf(stays: seq<Stay>, id: string): (at: nat)
    requires Taken(stays, id)
    ensures at < |stays| && stays[at].id == id
  {
    if stays[0].id == id then 0 else 1 + IndexOf(stays[1..], id)
  }

  /** One request, with the state of the properties in its transaction. The id of
      a new stay is drawn by the database and unused. */
  datatype Edit =
    | Create(id: string, propertyId: string, guest: Guest, checkInAt: int, checkOutAt: int)
    | Update(id: string, expectedRevision: int, newGuest: Guest, newCheckInAt: Option<int>,
             newCheckOutAt: Option<int>)
    | Cancel(id: string, expectedRevision: int)
    | Restore(id: string, expectedRevision: int)

  predicate Open(properties: map<string, bool>, propertyId: string) {
    propertyId in properties && properties[propertyId]
  }

  /** The stay after an edit of an existing one, or nothing when it is refused. */
  function Edited(stays: seq<Stay>, properties: map<string, bool>, current: Stay, edit: Edit): Option<Stay> {
    match edit
    case Create(_, _, _, _, _) => None
    case Update(id, expected, guest, newIn, newOut) =>
      var checkInAt := if newIn.Some? then newIn.value else current.checkInAt;
      var checkOutAt := if newOut.Some? then newOut.value else current.checkOutAt;
      var moved := checkInAt != current.checkInAt || checkOutAt != current.checkOutAt;
      if current.revision != expected || !current.active || checkInAt >= checkOutAt then None
      else if moved && !(&& Open(properties, current.propertyId)
                         && Available(stays, current.propertyId, checkInAt, checkOutAt, Some(id))) then None
      else Some(current.(guest := guest, checkInAt := checkInAt, checkOutAt := checkOutAt, revision := expected + 1))
    case Cancel(_, expected) =>
      if current.revision != expected || !current.active then None
      else Some(current.(active := false, revision := expected + 1))
    case Restore(id, expected) =>
      if current.revision != expected || current.active || current.checkInAt >= current.checkOutAt then None
      else if !Open(properties, current.propertyId) then None
      else if !Available(stays, current.propertyId, current.checkInAt, current.checkOutAt, Some(id)) then None
      else Some(current.(active := true, revision := expected + 1))
  }

  function Apply(stays: seq<Stay>, properties: map<string, bool>, edit: Edit): seq<Stay> {
    if edit.Create? then
      if Taken(stays, edit.id) || edit.checkInAt >= edit.checkOutAt || !Open(properties, edit.propertyId)
         || !Available(stays, edit.propertyId, edit.checkInAt, edit.checkOutAt, None)
      then stays
      else stays + [Stay(edit.id, edit.propertyId, edit.guest, edit.checkInAt, edit.checkOutAt, true, 1)]
    else if !Taken(stays, edit.id) then stays
    else
      var at := IndexOf(stays, edit.id);
      match Edited(stays, properties, stays[at], edit)
      case None => stays
      case Some(stay) => stays[at := stay]
  }

  lemma EditedApart(stays: seq<Stay>, properties: map<string, bool>, edit: Edit, other: nat)
    requires Sound(stays) && !edit.Create? && Taken(stays, edit.id) && other < |stays|
    requires other != IndexOf(stays, edit.id)
    ensures var next := Edited(stays, properties, stays[IndexOf(stays, edit.id)], edit);
            next.Some? ==> Apart(next.value, stays[other]) && next.value.id == edit.id
  {
    var at := IndexOf(stays, edit.id);
    assert stays[other] in stays && stays[other].id != edit.id;
    assert Apart(stays[at], stays[other]);
  }

  /** Every edit keeps the active stays of a property apart. */
  lemma ApplyKeeps(stays: seq<Stay>, properties: map<string, bool>, edit: Edit)
    requires Sound(stays)
    ensures Sound(Apply(stays, properties, edit))
  {
    var after := Apply(stays, properties, edit);
    if edit.Create? {
      forall i | 0 <= i < |stays| && |after| > |stays| ensures Apart(stays[i], after[|stays|]) {
        assert stays[i] in stays;
      }
    } else if Taken(stays, edit.id) {
      var at := IndexOf(stays, edit.id);
      forall i | 0 <= i < |stays| && i != at
        ensures Apart(after[at], after[i]) && after[i].id != after[at].id
      {
        EditedApart(stays, properties, edit, i);
        assert Apart(stays[at], stays[i]);
      }
    }
  }
}
