/** What the preview says of each row of a roster, and which rows may be registered, told of
    the stored rows, the houses and the stays alone. */
module RosterFindings {
  import opened Wrappers
  import opened RosterPreview
  import opened RosterConflicts
  import opened RosterValidation
  import Bookings
  import Text

  // ---------------------------------------------------------------- one row by itself

  /** A finding is added once, and the row needs a review, or is invalid for good. */
  lemma FlaggedMeans(row: PreviewRow, code: Code, invalid: bool)
    ensures var next := Flagged(row, code, invalid);
            && next == row.(messages := next.messages, status := next.status)
            && Codes(next.messages) == Codes(row.messages) + {code} && row.messages <= next.messages
            && |next.messages| == |row.messages| + (if code in Codes(row.messages) then 0 else 1)
            && next.status != Valid && (next.status == Invalid <==> invalid || row.status == Invalid)
  {
    WithCodeAdds(row.messages, code);
  }

  predicate AtMost(text: Option<string>, limit: nat) {
    text.Some? ==> |Text.Trim(text.value)| <= limit
  }

  /** A moment of the years 1000 to 9999, written in the strict form. */
  predicate Exactly(t: Option<Timestamp>, at: int) {
    match t
    case Some(Iso(instant)) => instant == at && -30_610_224_000_000 <= at <= 253_402_300_799_999
    case Some(Raw(_, parsed, strict)) => strict && parsed == Some(at)
    case None => false
  }

  /** The fields of a stay: a name, texts that are not too long, and a departure after an
      arrival. */
  ghost predicate SoundData(propertyId: Option<string>, d: Normalized) {
    && (propertyId.Some? ==> Text.IsUuidV4(propertyId.value))
    && d.guestName.Some? && Text.Trim(d.guestName.value) != "" && AtMost(d.guestName, 100)
    && AtMost(d.company, 100) && AtMost(d.department, 100) && AtMost(d.phone, 32) && AtMost(d.notes, 2000)
    && exists from, till :: Exactly(d.checkInAt, from) && Exactly(d.checkOutAt, till) && from < till
  }

  lemma SoundDataIff(propertyId: Option<string>, d: Normalized)
    ensures Accepted(propertyId, d) <==> SoundData(propertyId, d)
  {
    if Accepted(propertyId, d) {
      var from, till := Parse(d.checkInAt.value).value, Parse(d.checkOutAt.value).value;
      assert Exactly(d.checkInAt, from) && Exactly(d.checkOutAt, till);
    }
  }

  predicate House(properties: map<string, bool>, propertyId: Option<string>) {
    propertyId.Some? && propertyId.value != "" && propertyId.value in properties
  }

  /** Findings that the validation makes itself, and drops before it does. */
  predicate Derived(code: Code) {
    code in {PropertyNotMapped, InactiveProperty, ExistingStayOverlap, PossibleExistingDuplicate, DuplicateSourceRow,
             SourceStayOverlap, InvalidStayData}
  }

  predicate Fatal(code: Code) {
    code in {FormulaOrError, MissingGuestName, TextTooLong, InvalidDates, InvalidDateRange}
  }

  /** What the parser found in the row. */
  function FoundCodes(messages: seq<Message>): set<Code> {
    set m | m in messages && !Derived(m.code) :: m.code
  }

  lemma {:induction false} KeptMeans(messages: seq<Message>)
    ensures Codes(KeptMessages(messages)) == FoundCodes(messages)
  {
    if messages != [] {
      var first, rest := messages[0], KeptMessages(messages[1..]);
      KeptMeans(messages[1..]);
      assert messages == [first] + messages[1..];
      assert FoundCodes(messages) == FoundCodes(messages[1..]) + if Derived(first.code) then {} else {first.code};
      if !Dynamic(first.code) {
        var all := [Message(first.code, [])] + rest;
        assert all[0].code == first.code;
        assert Codes(all) == Codes(rest) + {first.code} by {
          forall c ensures c in Codes(all) <==> c in Codes(rest) + {first.code} {
            forall m ensures m in all <==> m == all[0] || m in rest {
            }
          }
        }
      }
    }
  }

  /** The row has exactly these findings, and its status goes with them. */
  predicate Says(r: PreviewRow, codes: set<Code>) {
    && Codes(r.messages) == codes && (r.status == Valid <==> codes == {})
    && (r.status == Invalid <==> exists code :: code in codes && (Fatal(code) || code == InvalidStayData))
  }

  lemma FatalIff(kept: seq<Message>, codes: set<Code>)
    requires Codes(kept) == codes && InvalidStayData !in codes
    ensures (exists m :: m in kept && Invalidates(m.code))
            <==> exists code :: code in codes && (Fatal(code) || code == InvalidStayData)
    ensures kept == [] <==> codes == {}
  {
    if m :| m in kept && Invalidates(m.code) {
      assert m.code in codes && Fatal(m.code);
    }
    if code :| code in codes && (Fatal(code) || code == InvalidStayData) {
      var m :| m in kept && m.code == code;
      assert Invalidates(m.code);
    }
    if kept != [] {
      assert kept[0].code in Codes(kept);
    }
  }

  lemma PreparedMeans(row: ImportRow)
    requires row.action != Skip
    ensures var p := Prepared(row);
            && p.id == row.id && p.sheetName == row.sheetName && p.propertyId == row.propertyId
            && p.action == row.action && p.data == row.data && Says(p, FoundCodes(row.messages))
  {
    KeptMeans(row.messages);
    FatalIff(KeptMessages(row.messages), FoundCodes(row.messages));
  }

  /** Flagging adds one finding. */
  lemma FlaggedSays(r: PreviewRow, codes: set<Code>, code: Code)
    requires Says(r, codes) && !Fatal(code)
    ensures Says(Flagged(r, code, code == InvalidStayData), codes + {code})
  {
    FlaggedMeans(r, code, code == InvalidStayData);
    assert code in codes + {code};
    if c :| c in codes && (Fatal(c) || c == InvalidStayData) {
      assert c in codes + {code};
    }
  }

  /** What is wrong with the house of a row, and with its fields. */
  function HouseCodes(row: ImportRow, properties: map<string, bool>): set<Code> {
    if !House(properties, row.propertyId) then {PropertyNotMapped}
    else if !properties[row.propertyId.value] then {InactiveProperty} else {}
  }

  ghost function FieldCodes(row: ImportRow): set<Code> {
    if row.data.None? || !SoundData(row.propertyId, row.data.value) then {InvalidStayData} else {}
  }

  ghost function OwnCodes(row: ImportRow, properties: map<string, bool>): set<Code> {
    FoundCodes(row.messages) + HouseCodes(row, properties) + FieldCodes(row)
  }

  lemma HousedMeans(p: PreviewRow, codes: set<Code>, row: ImportRow, properties: map<string, bool>)
    requires Says(p, codes) && p.propertyId == row.propertyId
    ensures var checked := PropertyChecked(p, properties);
            && Says(checked, codes + HouseCodes(row, properties))
            && checked == p.(messages := checked.messages, status := checked.status)
  {
    if !House(properties, row.propertyId) {
      FlaggedSays(p, codes, PropertyNotMapped);
    } else if !properties[row.propertyId.value] {
      FlaggedSays(p, codes, InactiveProperty);
    } else {
      assert codes + {} == codes;
    }
  }

  lemma FieldsMean(checked: PreviewRow, codes: set<Code>, row: ImportRow)
    requires Says(checked, codes) && checked.data == row.data && checked.propertyId == row.propertyId
    ensures Accepts(row) <==> FieldCodes(row) == {}
    ensures if Accepts(row) then Says(checked.(data := Some(Canonical(row.data.value))), codes + FieldCodes(row))
            else Says(Flagged(checked, InvalidStayData, true), codes + FieldCodes(row))
  {
    if row.data.Some? {
      SoundDataIff(row.propertyId, row.data.value);
    }
    FlaggedSays(checked, codes, InvalidStayData);
    assert codes + {} == codes;
  }

  predicate Accepts(row: ImportRow) {
    row.data.Some? && Accepted(row.propertyId, row.data.value)
  }

  /** A row to create keeps what the parser found and gains what is wrong with its house and
      its fields; it is invalid for a fatal finding or unsound fields, and valid exactly when
      nothing at all was found. Unsound fields are left as they are. */
  lemma ReviewedMeans(row: ImportRow, properties: map<string, bool>)
    requires row.action == RowAction.Create
    ensures var r := Reviewed(Prepared(row), properties);
            && Says(r, OwnCodes(row, properties)) && r.propertyId == row.propertyId && r.action == row.action
            && (if FieldCodes(row) == {} then r.data == Some(Canonical(row.data.value)) else r.data == row.data)
  {
    var p, codes := Prepared(row), FoundCodes(row.messages);
    PreparedMeans(row);
    HousedMeans(p, codes, row, properties);
    FieldsMean(PropertyChecked(p, properties), codes + HouseCodes(row, properties), row);
  }

  // ---------------------------------------------------------------- how long a row lasts

  /** The row is about a stay between these instants: its own times, or else the beginning of
      the day of arrival and the end of the day of departure in Seoul. */
  predicate Lasts(r: PreviewRow, from: int, till: int) {
    && r.status != Invalid && from < till
    && match r.data
       case None => false
       case Some(d) =>
         && d.checkInDate.Some? && d.checkInDate.value != NoDate("")
         && d.checkOutDate.Some? && d.checkOutDate.value != NoDate("")
         && (if d.checkInAt.Some? then Parse(d.checkInAt.value) == Some(from)
             else d.checkInDate.value == Day((from + 32_400_000) / 86_400_000) && (from + 32_400_000) % 86_400_000 == 0)
         && (if WithTime(d.checkOutAt) then Parse(d.checkOutAt.value) == Some(till)
             else && d.checkOutDate.value == Day((till + 32_400_000) / 86_400_000 - 1)
                  && (till + 32_400_000) % 86_400_000 == 0)
  }

  predicate WithTime(t: Option<Timestamp>) {
    t.Some? && !(t.value.Raw? && t.value.text == "")
  }

  lemma MidnightMeans(d: DateText, at: int)
    ensures Midnight(d) == Some(at)
            <==> d == Day((at + 32_400_000) / 86_400_000) && (at + 32_400_000) % 86_400_000 == 0
    ensures d.Day? <==> Midnight(d).Some?
  {
  }

  lemma LastsIff(r: PreviewRow, from: int, till: int)
    ensures BoundsOf(r) == Some(Bounds(from, till)) <==> Lasts(r, from, till)
  {
    if r.data.Some? && r.data.value.checkInDate.Some? && r.data.value.checkOutDate.Some? {
      MidnightMeans(r.data.value.checkInDate.value, from);
      MidnightMeans(r.data.value.checkOutDate.value, till - 86_400_000);
    }
  }

  /** The stay is in the way of the row: an active one of its house that overlaps it. */
  ghost predicate InWay(r: PreviewRow, s: Stay) {
    && r.action != Skip && s.active && r.propertyId == Some(s.propertyId)
    && exists from, till :: Lasts(r, from, till) && s.checkInAt < till && from < s.checkOutAt
  }

  /** Two different rows of one house, or of one sheet without a house, that overlap. */
  ghost predicate Meet(rows: seq<PreviewRow>, i: nat, j: nat)
    requires i < |rows| && j < |rows|
  {
    && i != j && rows[i].action != Skip && rows[j].action != Skip
    && (if rows[i].propertyId.Some? then rows[i].propertyId.value else rows[i].sheetName)
       == (if rows[j].propertyId.Some? then rows[j].propertyId.value else rows[j].sheetName)
    && exists from, till, from', till' ::
         Lasts(rows[i], from, till) && Lasts(rows[j], from', till') && from < till' && from' < till
  }

  lemma LastsWhen(r: PreviewRow)
    ensures BoundsOf(r).Some? ==> Lasts(r, BoundsOf(r).value.from, BoundsOf(r).value.to)
    ensures forall from, till :: Lasts(r, from, till) ==> BoundsOf(r) == Some(Bounds(from, till))
  {
    if BoundsOf(r).Some? {
      LastsIff(r, BoundsOf(r).value.from, BoundsOf(r).value.to);
    }
    forall from, till | Lasts(r, from, till) ensures BoundsOf(r) == Some(Bounds(from, till)) {
      LastsIff(r, from, till);
    }
  }

  lemma InWayIff(r: PreviewRow, s: Stay)
    ensures InWay(r, s) <==> Checked(r) && s.active && Hits(r, AsConflict(s))
  {
    LastsWhen(r);
  }

  lemma MeetIff(rows: seq<PreviewRow>, i: nat, j: nat)
    requires i < |rows| && j < |rows|
    ensures Meet(rows, i, j) <==> Rivals(rows, i, j)
  {
    LastsWhen(rows[i]);
    LastsWhen(rows[j]);
  }

  // ---------------------------------------------------------------- which rows may be registered

  /** A row may be registered exactly when nothing was found in it, its house is open, its
      fields are sound, no active stay is in its way and no other row overlaps it. */
  lemma ConfirmableIff(stored: seq<ImportRow>, properties: map<string, bool>, stays: seq<Stay>, k: nat)
    requires k < |stored| && stored[k].action == RowAction.Create
    ensures Confirmable(stored, properties, stays, k)
            <==> && OwnCodes(stored[k], properties) == {}
                 && (forall s :: s in stays ==> !InWay(ReviewedAll(stored, properties)[k], s))
                 && forall j: nat :: j < |stored| ==> !Meet(ReviewedAll(stored, properties), k, j)
  {
    var rows := ReviewedAll(stored, properties);
    ReviewedMeans(stored[k], properties);
    ReviewedValid(stored[k], properties);
    forall s: Stay ensures InWay(rows[k], s) <==> Checked(rows[k]) && s.active && Hits(rows[k], AsConflict(s)) {
      InWayIff(rows[k], s);
    }
    forall j: nat | j < |rows| ensures Meet(rows, k, j) <==> Rivals(rows, k, j) {
      MeetIff(rows, k, j);
    }
  }

  /** The one query returns exactly the active stays of the rows' houses that begin before
      some row ends and end after some row begins. */
  lemma WindowMeans(rows: seq<PreviewRow>, stays: seq<Stay>, c: ConflictStay)
    ensures c in Window(rows, stays)
            <==> exists s :: && s in stays && s.active && c == AsConflict(s) && s.propertyId in PropertyIds(rows)
                             && (exists r :: r in rows && r.action == RowAction.Create && EndsAfter(r, s.checkInAt))
                             && (exists r :: r in rows && r.action == RowAction.Create && BeginsBefore(r, s.checkOutAt))
  {
    var bounds := CreateBounds(rows);
    forall r ensures (BoundsOf(r).Some? ==> Lasts(r, BoundsOf(r).value.from, BoundsOf(r).value.to))
                     && forall from, till :: Lasts(r, from, till) ==> BoundsOf(r) == Some(Bounds(from, till)) {
      LastsWhen(r);
    }
    if bounds != [] {
      EarliestIn(bounds);
      LatestIn(bounds);
    }
  }

  ghost predicate EndsAfter(r: PreviewRow, at: int) {
    exists from, till :: Lasts(r, from, till) && at < till
  }

  ghost predicate BeginsBefore(r: PreviewRow, at: int) {
    exists from, till :: Lasts(r, from, till) && from < at
  }

  lemma {:induction false} EarliestIn(bounds: seq<Bounds>)
    requires bounds != []
    ensures exists b :: b in bounds && b.from == Earliest(bounds)
  {
    if |bounds| > 1 {
      EarliestIn(bounds[1..]);
      assert bounds[0] in bounds;
    } else {
      assert bounds[0] in bounds;
    }
  }

  lemma {:induction false} LatestIn(bounds: seq<Bounds>)
    requires bounds != []
    ensures exists b :: b in bounds && b.to == Latest(bounds)
  {
    if |bounds| > 1 {
      LatestIn(bounds[1..]);
      assert bounds[0] in bounds;
    } else {
      assert bounds[0] in bounds;
    }
  }

  // ---------------------------------------------------------------- what conflicts a row is told of

  predicate Copies(a: Normalized, b: Normalized) {
    && a.guestName.Some? && a.checkInAt.Some? && a.checkOutAt.Some?
    && b.guestName == a.guestName && b.checkInAt == a.checkInAt && b.checkOutAt == a.checkOutAt
  }

  /** The stay is of the same guest at the very same times. */
  predicate Repeats(r: PreviewRow, s: Stay) {
    && r.data.Some? && r.data.value.guestName == Some(s.guest.name) && s.guest.name != ""
    && r.data.value.checkInAt == Some(Iso(s.checkInAt)) && r.data.value.checkOutAt == Some(Iso(s.checkOutAt))
  }

  ghost predicate Conflicting(rows: seq<PreviewRow>, stays: seq<Stay>, k: nat, code: Code)
    requires k < |rows|
  {
    match code
    case ExistingStayOverlap => exists s :: s in stays && InWay(rows[k], s)
    case PossibleExistingDuplicate => exists s :: s in stays && InWay(rows[k], s) && Repeats(rows[k], s)
    case DuplicateSourceRow => exists j: nat :: && j < |rows| && Meet(rows, k, j) && BothSay(rows, k, j, true)
    case SourceStayOverlap => exists j: nat :: && j < |rows| && Meet(rows, k, j) && BothSay(rows, k, j, false)
    case _ => false
  }

  predicate BothSay(rows: seq<PreviewRow>, k: nat, j: nat, copies: bool)
    requires k < |rows| && j < |rows|
  {
    rows[k].data.Some? && rows[j].data.Some? && Copies(rows[k].data.value, rows[j].data.value) == copies
  }

  /** Between the stays in the way and what the query returned there is no difference. */
  lemma WindowInWay(rows: seq<PreviewRow>, stays: seq<Stay>, k: nat)
    requires k < |rows| && rows[k].action == RowAction.Create && rows[k].propertyId != Some("")
    ensures forall s :: s in stays && InWay(rows[k], s) ==>
              Checked(rows[k]) && AsConflict(s) in Window(rows, stays) && Hits(rows[k], AsConflict(s))
    ensures Checked(rows[k]) ==>
              forall c :: c in Window(rows, stays) && Hits(rows[k], c) ==>
                exists s :: s in stays && c == AsConflict(s) && InWay(rows[k], s)
  {
    var row, window := rows[k], Window(rows, stays);
    forall s | s in stays && InWay(row, s) ensures Checked(row) && AsConflict(s) in window && Hits(row, AsConflict(s)) {
      InWayIff(row, s);
      WindowMissesNone(rows, stays, row, s);
    }
    if Checked(row) {
      forall c | c in window && Hits(row, c) ensures exists s :: s in stays && c == AsConflict(s) && InWay(row, s) {
        WindowFindsOnlyStays(rows, stays, c);
        var s :| s in stays && s.active && c == AsConflict(s);
        InWayIff(row, s);
      }
    }
  }

  lemma ExistingMean(rows: seq<PreviewRow>, stays: seq<Stay>, k: nat, code: Code)
    requires k < |rows| && rows[k].action == RowAction.Create && rows[k].propertyId != Some("")
    ensures code in ExistingCodes(rows[k], Window(rows, stays))
            <==> code in {ExistingStayOverlap, PossibleExistingDuplicate} && Conflicting(rows, stays, k, code)
  {
    WindowInWay(rows, stays, k);
    CodesOfHits(rows[k], stays, Window(rows, stays), code);
  }

  lemma CodesOfHits(row: PreviewRow, stays: seq<Stay>, found: seq<ConflictStay>, code: Code)
    requires forall s :: s in stays && InWay(row, s) ==>
               Checked(row) && AsConflict(s) in found && Hits(row, AsConflict(s))
    requires Checked(row) ==>
               forall c :: c in found && Hits(row, c) ==> exists s :: s in stays && c == AsConflict(s) && InWay(row, s)
    ensures code in ExistingCodes(row, found)
            <==> || (code == ExistingStayOverlap && exists s :: s in stays && InWay(row, s))
                 || (code == PossibleExistingDuplicate && exists s :: s in stays && InWay(row, s) && Repeats(row, s))
  {
    if Checked(row) {
      forall s | s in stays && InWay(row, s)
        ensures SameStay(row.data.value, AsConflict(s)) <==> Repeats(row, s)
      {
      }
    }
  }

  lemma SourceMean(rows: seq<PreviewRow>, stays: seq<Stay>, k: nat, code: Code)
    requires k < |rows|
    ensures code in SourceCodes(rows, k)
            <==> code in {DuplicateSourceRow, SourceStayOverlap} && Conflicting(rows, stays, k, code)
  {
    forall j: nat | j < |rows| ensures Meet(rows, k, j) <==> Rivals(rows, k, j) {
      MeetIff(rows, k, j);
    }
    forall j: nat | j < |rows| && Rivals(rows, k, j)
      ensures BothSay(rows, k, j, PairCode(rows[k].data.value, rows[j].data.value) == DuplicateSourceRow)
    {
    }
  }

  /** A validated row says what it was found to be by itself and exactly the conflicts it has,
      with the stays of its house and with the rest of the roster; it is valid exactly when
      there is nothing to say, and a conflict alone makes no row invalid. */
  lemma OutcomeMeans(stored: seq<ImportRow>, properties: map<string, bool>, stays: seq<Stay>, k: nat, row: PreviewRow)
    requires k < |stored| && stored[k].action == RowAction.Create && stored[k].propertyId != Some("")
    requires var rows := ReviewedAll(stored, properties); Outcome(rows, row, Window(rows, stays), k)
    ensures var rows := ReviewedAll(stored, properties);
            && row == rows[k].(messages := row.messages, status := row.status)
            && (forall code :: code in Codes(row.messages)
                               <==> code in OwnCodes(stored[k], properties) || Conflicting(rows, stays, k, code))
            && (row.status == Valid <==> Codes(row.messages) == {})
            && (row.status == Invalid <==> rows[k].status == Invalid)
  {
    var rows := ReviewedAll(stored, properties);
    ReviewedMeans(stored[k], properties);
    ConflictsMean(rows, stays, k);
  }

  lemma ConflictsMean(rows: seq<PreviewRow>, stays: seq<Stay>, k: nat)
    requires k < |rows| && rows[k].action == RowAction.Create && rows[k].propertyId != Some("")
    ensures forall code :: code in ConflictCodes(rows, Window(rows, stays), k) <==> Conflicting(rows, stays, k, code)
  {
    forall code ensures code in ConflictCodes(rows, Window(rows, stays), k) <==> Conflicting(rows, stays, k, code) {
      ExistingMean(rows, stays, k, code);
      SourceMean(rows, stays, k, code);
    }
  }
}
