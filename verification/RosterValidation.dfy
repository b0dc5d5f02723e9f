/** Re-validation of a stored roster against the current properties and stays. */
module RosterValidation {
  import opened Wrappers
  import opened RosterPreview
  import opened RosterConflicts
  import Bookings
  import Text

  type Stay = Bookings.Stay

  const STAY_LIMIT := 5000

  /** A roster row as it is stored. */
  datatype ImportRow = ImportRow(
    id: string, sheetName: string, propertyId: Option<string>, action: RowAction,
    data: Option<Normalized>, status: RowStatus, messages: seq<Message>,
    stayId: Option<string>, appliedAt: Option<int>, expectedStayRevision: Option<int>,
    beforeSnapshot: Option<Stay>, afterSnapshot: Option<Stay>)

  datatype ValidationError = UnsupportedAction | RangeTooLarge

  // ---------------------------------------------------------------- preparing a row

  /** Codes that every validation derives afresh. */
  predicate Dynamic(code: Code) {
    || code == PropertyNotMapped || code == InactiveProperty || code == ExistingStayOverlap
    || code == PossibleExistingDuplicate || code == DuplicateSourceRow || code == SourceStayOverlap
    || code == InvalidStayData
  }

  predicate Invalidates(code: Code) {
    || code == FormulaOrError || code == MissingGuestName || code == TextTooLong
    || code == InvalidDates || code == InvalidDateRange
  }

  /** The findings of the parser, without those derived from other records. */
  function KeptMessages(messages: seq<Message>): (kept: seq<Message>)
    ensures forall m :: m in kept ==> !Dynamic(m.code)
    ensures kept == [] <==> forall m :: m in messages ==> Dynamic(m.code)
  {
    if messages == [] then []
    else (if Dynamic(messages[0].code) then [] else [Message(messages[0].code, [])]) + KeptMessages(messages[1..])
  }

  function Prepared(row: ImportRow): PreviewRow {
    var messages := KeptMessages(row.messages);
    var status := if row.action == Skip then Valid
                  else if exists m :: m in messages && Invalidates(m.code) then Invalid
                  else if messages != [] then NeedsReview else Valid;
    PreviewRow(row.id, row.sheetName, row.propertyId, row.action, row.data, status, messages)
  }

  function PreparedAll(stored: seq<ImportRow>): seq<PreviewRow> {
    seq(|stored|, k requires 0 <= k < |stored| => Prepared(stored[k]))
  }

  // ---------------------------------------------------------------- checking the fields of a row

  predicate Strict(t: Timestamp) {
    match t
    case Iso(at) => FIRST_STRICT <= at <= LAST_STRICT
    case Raw(_, parsed, strict) => strict && parsed.Some?
  }

  predicate FitsAfterTrim(value: Option<string>, limit: nat) {
    value.None? || |Text.Trim(value.value)| <= limit
  }

  /** The field rules of a new stay, and a departure after the arrival. */
  predicate Accepted(propertyId: Option<string>, d: Normalized) {
    && (propertyId.None? || Text.IsUuidV4(propertyId.value))
    && d.guestName.Some? && 1 <= |Text.Trim(d.guestName.value)| <= 100
    && FitsAfterTrim(d.company, 100) && FitsAfterTrim(d.department, 100)
    && FitsAfterTrim(d.phone, 32) && FitsAfterTrim(d.notes, 2000)
    && d.checkInAt.Some? && Strict(d.checkInAt.value)
    && d.checkOutAt.Some? && Strict(d.checkOutAt.value)
    && Parse(d.checkInAt.value).value < Parse(d.checkOutAt.value).value
  }

  function SeoulDay(at: int): DateText {
    Day((at + SEOUL_OFFSET_MS) / DAY_MS)
  }

  function Canonical(d: Normalized): Normalized
    requires d.checkInAt.Some? && Strict(d.checkInAt.value)
    requires d.checkOutAt.Some? && Strict(d.checkOutAt.value)
  {
    var checkIn, checkOut := Parse(d.checkInAt.value).value, Parse(d.checkOutAt.value).value;
    d.(checkInAt := Some(Iso(checkIn)), checkOutAt := Some(Iso(checkOut)),
       checkInDate := Some(SeoulDay(checkIn)), checkOutDate := Some(SeoulDay(checkOut)))
  }

  predicate Mapped(row: PreviewRow, properties: map<string, bool>) {
    row.propertyId.Some? && row.propertyId.value != "" && row.propertyId.value in properties
  }

  function PropertyChecked(row: PreviewRow, properties: map<string, bool>): PreviewRow {
    if !Mapped(row, properties) then Flagged(row, PropertyNotMapped, false)
    else if !properties[row.propertyId.value] then Flagged(row, InactiveProperty, false)
    else row
  }

  /** A row after the checks that concern it alone. */
  function Reviewed(row: PreviewRow, properties: map<string, bool>): PreviewRow {
    if row.action == Skip then row
    else
      var checked := PropertyChecked(row, properties);
      if row.data.None? || !Accepted(row.propertyId, row.data.value) then Flagged(checked, InvalidStayData, true)
      else checked.(data := Some(Canonical(row.data.value)))
  }

  function ReviewedAll(stored: seq<ImportRow>, properties: map<string, bool>): seq<PreviewRow> {
    seq(|stored|, k requires 0 <= k < |stored| => Reviewed(Prepared(stored[k]), properties))
  }

  method ReviewRow(roster: Roster, at: nat, properties: map<string, bool>)
    requires at < |roster.rows|
    modifies roster
    ensures roster.rows == old(roster.rows)[at := Reviewed(old(roster.rows)[at], properties)]
  {
    var row := roster.rows[at];
    if row.action == Skip {
      return;
    }
    if row.propertyId.None? || row.propertyId.value == "" || row.propertyId.value !in properties {
      roster.Flag(at, PropertyNotMapped, false);
    } else if !properties[row.propertyId.value] {
      roster.Flag(at, InactiveProperty, false);
    }
    if row.data.None? {
      roster.Flag(at, InvalidStayData, true);
      return;
    }
    if !Accepted(row.propertyId, row.data.value) {
      roster.Flag(at, InvalidStayData, true);
    } else {
      roster.rows := roster.rows[at := roster.rows[at].(data := Some(Canonical(row.data.value)))];
    }
  }

  /** The rows while the first i of them have been reviewed. */
  function PartReviewed(stored: seq<ImportRow>, properties: map<string, bool>, i: nat): seq<PreviewRow> {
    seq(|stored|, k requires 0 <= k < |stored| =>
      if k < i then Reviewed(Prepared(stored[k]), properties) else Prepared(stored[k]))
  }

  method ReviewRows(stored: seq<ImportRow>, properties: map<string, bool>) returns (roster: Roster)
    ensures fresh(roster) && roster.rows == ReviewedAll(stored, properties)
  {
    roster := new Roster(PreparedAll(stored));
    var i := 0;
    while i < |roster.rows|
      invariant 0 <= i <= |roster.rows| && roster.rows == PartReviewed(stored, properties, i)
    {
      ReviewRow(roster, i, properties);
      i := i + 1;
    }
  }

  // ---------------------------------------------------------------- the query for existing stays

  function CreateBounds(rows: seq<PreviewRow>): (bounds: seq<Bounds>)
    ensures forall b :: b in bounds
                        <==> exists r :: r in rows && r.action == RowAction.Create && BoundsOf(r) == Some(b)
  {
    if rows == [] then []
    else
      var rest := CreateBounds(rows[1..]);
      assert forall r :: r in rows <==> r == rows[0] || r in rows[1..];
      if rows[0].action == RowAction.Create && BoundsOf(rows[0]).Some? then [BoundsOf(rows[0]).value] + rest else rest
  }

  function PropertyIds(rows: seq<PreviewRow>): set<string> {
    set r | r in rows && r.action == RowAction.Create && r.propertyId.Some? && r.propertyId.value != "" ::
      r.propertyId.value
  }

  function Earliest(bounds: seq<Bounds>): (from: int)
    requires bounds != []
    ensures forall b :: b in bounds ==> from <= b.from
  {
    if |bounds| == 1 then bounds[0].from
    else
      var rest := Earliest(bounds[1..]);
      if bounds[0].from < rest then bounds[0].from else rest
  }

  function Latest(bounds: seq<Bounds>): (to: int)
    requires bounds != []
    ensures forall b :: b in bounds ==> b.to <= to
  {
    if |bounds| == 1 then bounds[0].to
    else
      var rest := Latest(bounds[1..]);
      if rest < bounds[0].to then bounds[0].to else rest
  }

  function AsConflict(s: Stay): ConflictStay {
    ConflictStay(s.id, s.propertyId, s.guest.name, s.checkInAt, s.checkOutAt)
  }

  function Query(stays: seq<Stay>, ids: set<string>, from: int, to: int): (found: seq<ConflictStay>)
    ensures forall c :: c in found
                        <==> exists s :: && s in stays && s.active && s.propertyId in ids
                                         && s.checkInAt < to && from < s.checkOutAt && c == AsConflict(s)
  {
    if stays == [] then []
    else
      var s, rest := stays[0], Query(stays[1..], ids, from, to);
      assert forall t :: t in stays <==> t == s || t in stays[1..];
      if s.active && s.propertyId in ids && s.checkInAt < to && from < s.checkOutAt then [AsConflict(s)] + rest
      else rest
  }

  /** One query for the whole roster, from its first arrival to its last departure. */
  function Window(rows: seq<PreviewRow>, stays: seq<Stay>): seq<ConflictStay> {
    var bounds := CreateBounds(rows);
    if bounds == [] || PropertyIds(rows) == {} then []
    else Query(stays, PropertyIds(rows), Earliest(bounds), Latest(bounds))
  }

  /** The window finds an active stay in the way of a row whenever there is one. */
  lemma WindowMissesNone(rows: seq<PreviewRow>, stays: seq<Stay>, row: PreviewRow, s: Stay)
    requires row in rows && row.action == RowAction.Create && Checked(row) && row.propertyId != Some("")
    requires s in stays && s.active && Hits(row, AsConflict(s))
    ensures AsConflict(s) in Window(rows, stays)
  {
    var bounds, own := CreateBounds(rows), BoundsOf(row).value;
    assert own in bounds;
    assert row.propertyId.value in PropertyIds(rows);
    assert Earliest(bounds) <= own.from && own.to <= Latest(bounds);
  }

  lemma WindowFindsOnlyStays(rows: seq<PreviewRow>, stays: seq<Stay>, c: ConflictStay)
    requires c in Window(rows, stays)
    ensures exists s :: s in stays && s.active && c == AsConflict(s)
  {
  }

  // ---------------------------------------------------------------- the whole validation

  /** An active stay of the row's own property is in its way. */
  predicate Blocked(row: PreviewRow, stays: seq<Stay>)
    requires Checked(row)
  {
    exists s :: s in stays && s.active && Hits(row, AsConflict(s))
  }

  /** Nothing stands in the way of registering the k-th row. */
  ghost predicate Confirmable(stored: seq<ImportRow>, properties: map<string, bool>, stays: seq<Stay>, k: nat)
    requires k < |stored|
  {
    var rows, row := ReviewedAll(stored, properties), stored[k];
    && (forall m :: m in row.messages ==> Dynamic(m.code))
    && Mapped(Prepared(row), properties) && properties[row.propertyId.value]
    && row.data.Some? && Accepted(row.propertyId, row.data.value)
    && Checked(rows[k]) && !Blocked(rows[k], stays)
    && forall j :: 0 <= j < |rows| ==> !Rivals(rows, k, j)
  }

  lemma ReviewedValid(row: ImportRow, properties: map<string, bool>)
    requires row.action == RowAction.Create
    ensures var r := Reviewed(Prepared(row), properties);
            r.status == Valid <==>
              && (forall m :: m in row.messages ==> Dynamic(m.code))
              && Mapped(Prepared(row), properties) && properties[row.propertyId.value]
              && row.data.Some? && Accepted(row.propertyId, row.data.value)
    ensures var r := Reviewed(Prepared(row), properties);
            r.status == Valid ==> Checked(r) && r.data == Some(Canonical(row.data.value))
  {
  }

  lemma ClearCodes(rows: seq<PreviewRow>, stays: seq<Stay>, k: nat)
    requires k < |rows| && rows[k].action == RowAction.Create && Checked(rows[k]) && rows[k].propertyId != Some("")
    ensures ConflictCodes(rows, Window(rows, stays), k) == {} <==>
              !Blocked(rows[k], stays) && forall j :: 0 <= j < |rows| ==> !Rivals(rows, k, j)
  {
    var row, window := rows[k], Window(rows, stays);
    if s :| s in stays && s.active && Hits(row, AsConflict(s)) {
      WindowMissesNone(rows, stays, row, s);
      assert ExistingStayOverlap in ExistingCodes(row, window);
    }
    if j :| 0 <= j < |rows| && Rivals(rows, k, j) {
      assert PairCode(rows[k].data.value, rows[j].data.value) in SourceCodes(rows, k);
    }
    if c :| c in window && Hits(row, c) {
      WindowFindsOnlyStays(rows, stays, c);
    }
  }

  lemma OutcomeValid(stored: seq<ImportRow>, properties: map<string, bool>, stays: seq<Stay>, k: nat,
                     row: PreviewRow)
    requires k < |stored| && stored[k].action == RowAction.Create
    ensures var rows := ReviewedAll(stored, properties);
            Outcome(rows, row, Window(rows, stays), k) ==>
              && (row.status == Valid <==> Confirmable(stored, properties, stays, k))
              && (row.status == Valid ==> row.data == Some(Canonical(stored[k].data.value)))
  {
    var rows := ReviewedAll(stored, properties);
    ReviewedValid(stored[k], properties);
    if rows[k].status == Valid {
      ClearCodes(rows, stays, k);
    }
  }

  lemma OutcomesValid(stored: seq<ImportRow>, properties: map<string, bool>, stays: seq<Stay>, rows: seq<PreviewRow>)
    requires |rows| == |stored|
    requires var reviewed := ReviewedAll(stored, properties);
             forall k :: 0 <= k < |stored| ==> Outcome(reviewed, rows[k], Window(reviewed, stays), k)
    ensures forall k :: 0 <= k < |stored| ==> rows[k].id == stored[k].id
    ensures forall k :: 0 <= k < |stored| && stored[k].action == RowAction.Create ==>
              (rows[k].status == Valid <==> Confirmable(stored, properties, stays, k))
  {
    forall k | 0 <= k < |stored|
      ensures rows[k].id == stored[k].id
      ensures stored[k].action == RowAction.Create ==>
                (rows[k].status == Valid <==> Confirmable(stored, properties, stays, k))
    {
      OutcomeId(stored, properties, stays, k, rows[k]);
      if stored[k].action == RowAction.Create {
        OutcomeValid(stored, properties, stays, k, rows[k]);
      }
    }
  }

  lemma OutcomeId(stored: seq<ImportRow>, properties: map<string, bool>, stays: seq<Stay>, k: nat, row: PreviewRow)
    requires k < |stored|
    ensures var rows := ReviewedAll(stored, properties);
            Outcome(rows, row, Window(rows, stays), k) ==> row.id == stored[k].id
  {
  }

  /** Validates a stored roster. A row to create is Valid exactly when nothing in
      the roster or among all the stays of its property stands in its way. */
  method ValidateRows(stored: seq<ImportRow>, properties: map<string, bool>, stays: seq<Stay>)
    returns (r: Result<seq<PreviewRow>, ValidationError>)
    ensures var rows := ReviewedAll(stored, properties);
            var window := Window(rows, stays);
            if exists k :: 0 <= k < |stored| && stored[k].action == RowAction.Update then r == Err(UnsupportedAction)
            else if |window| > STAY_LIMIT then r == Err(RangeTooLarge)
            else
              && r.Ok? && |r.value| == |stored|
              && (forall k :: 0 <= k < |stored| ==> r.value[k].id == stored[k].id)
              && (forall k :: 0 <= k < |stored| ==> Outcome(rows, r.value[k], window, k))
              && (forall k :: 0 <= k < |stored| && stored[k].action == RowAction.Create ==>
                    (r.value[k].status == Valid <==> Confirmable(stored, properties, stays, k)))
  {
    if exists k :: 0 <= k < |stored| && stored[k].action == RowAction.Update {
      return Err(UnsupportedAction);
    }
    var roster := ReviewRows(stored, properties);
    var found := Window(roster.rows, stays);
    if |found| > STAY_LIMIT {
      return Err(RangeTooLarge);
    }
    CheckRosterConflicts(roster, found);
    OutcomesValid(stored, properties, stays, roster.rows);
    return Ok(roster.rows);
  }
}
