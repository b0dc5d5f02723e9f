/** Overlaps between the rows of a roster, and between a row and stays already
    registered: the sorted sweep with early exit, and the all-pairs meaning it
    is proved against. */
module RosterConflicts {
  import opened Wrappers
  import opened RosterPreview

  const NAMED_STAYS := 20

  datatype ConflictStay = ConflictStay(id: string, propertyId: string, guestName: string,
                                       checkInAt: int, checkOutAt: int)

  datatype Bounds = Bounds(from: int, to: int)

  /** A row of a group, by its position in the roster. */
  datatype Entry = Entry(at: nat, from: int, to: int)

  predicate Given(t: Option<Timestamp>) {
    match t
    case Some(Raw(text, _, _)) => text != ""
    case Some(Iso(_)) => true
    case None => false
  }

  predicate GivenDate(d: Option<DateText>) {
    d.Some? && d != Some(NoDate(""))
  }

  function Midnight(d: DateText): Option<int> {
    match d
    case Day(day) => Some(day * DAY_MS - SEOUL_OFFSET_MS)
    case NoDate(_) => None
  }

  function StayBounds(data: Option<Normalized>, status: RowStatus): (bounds: Option<Bounds>)
    ensures bounds.Some? ==> bounds.value.from < bounds.value.to && data.Some? && status != Invalid
  {
    if data.None? || !GivenDate(data.value.checkInDate) || !GivenDate(data.value.checkOutDate) || status == Invalid
    then None
    else
      var d := data.value;
      var from := if d.checkInAt.Some? then Parse(d.checkInAt.value) else Midnight(d.checkInDate.value);
      var to := if Given(d.checkOutAt) then Parse(d.checkOutAt.value)
                else match Midnight(d.checkOutDate.value)
                  case Some(start) => Some(start + DAY_MS)
                  case None => None;
      if from.Some? && to.Some? && from.value < to.value then Some(Bounds(from.value, to.value)) else None
  }


  // ---------------------------------------------------------------- what the check means

  function BoundsOf(row: PreviewRow): (bounds: Option<Bounds>)
    ensures bounds.Some? ==> bounds.value.from < bounds.value.to && row.data.Some? && row.status != Invalid
  {
    StayBounds(row.data, row.status)
  }

  predicate Checked(row: PreviewRow) {
    row.action != Skip && BoundsOf(row).Some?
  }

  function GroupKey(row: PreviewRow): string {
    if row.propertyId.Some? then row.propertyId.value else row.sheetName
  }

  predicate Intersects(a: Bounds, b: Bounds) {
    a.from < b.to && b.from < a.to
  }

  /** Same name, same arrival and same departure, all of them given. */
  predicate Exact(a: Normalized, b: Normalized) {
    && a.guestName.Some? && a.guestName == b.guestName
    && a.checkInAt.Some? && a.checkInAt == b.checkInAt
    && a.checkOutAt.Some? && a.checkOutAt == b.checkOutAt
  }

  function PairCode(a: Normalized, b: Normalized): Code {
    if Exact(a, b) then DuplicateSourceRow else SourceStayOverlap
  }

  /** Two different rows of one group whose stays intersect. */
  predicate Rivals(rows: seq<PreviewRow>, i: nat, j: nat)
    requires i < |rows| && j < |rows|
  {
    && i != j && Checked(rows[i]) && Checked(rows[j]) && GroupKey(rows[i]) == GroupKey(rows[j])
    && Intersects(BoundsOf(rows[i]).value, BoundsOf(rows[j]).value)
  }

  /** A row is marked for every rival it has, by whether the rival is a copy. */
  ghost function SourceCodes(rows: seq<PreviewRow>, i: nat): set<Code>
    requires i < |rows|
  {
    set j | 0 <= j < |rows| && Rivals(rows, i, j) :: PairCode(rows[i].data.value, rows[j].data.value)
  }

  predicate Hits(row: PreviewRow, stay: ConflictStay)
    requires Checked(row)
  {
    Some(stay.propertyId) == row.propertyId && Intersects(Bounds(stay.checkInAt, stay.checkOutAt), BoundsOf(row).value)
  }

  function Conflicts(row: PreviewRow, stays: seq<ConflictStay>): (hits: seq<ConflictStay>)
    requires Checked(row)
    ensures forall s :: s in hits <==> s in stays && Hits(row, s)
  {
    if stays == [] then []
    else (if Hits(row, stays[0]) then [stays[0]] else []) + Conflicts(row, stays[1..])
  }

  predicate SameStay(data: Normalized, stay: ConflictStay) {
    && data.guestName.Some? && data.guestName.value != "" && stay.guestName == data.guestName.value
    && data.checkInAt == Some(Iso(stay.checkInAt)) && data.checkOutAt == Some(Iso(stay.checkOutAt))
  }

  ghost function ExistingCodes(row: PreviewRow, stays: seq<ConflictStay>): set<Code> {
    if !Checked(row) then {}
    else
      (if exists s :: s in stays && Hits(row, s) then {ExistingStayOverlap} else {})
      + (if exists s :: s in stays && Hits(row, s) && SameStay(row.data.value, s)
         then {PossibleExistingDuplicate} else {})
  }

  ghost function ConflictCodes(rows: seq<PreviewRow>, stays: seq<ConflictStay>, i: nat): set<Code>
    requires i < |rows|
  {
    ExistingCodes(rows[i], stays) + SourceCodes(rows, i)
  }

  function StatusWith(status: RowStatus, flagged: bool): RowStatus {
    if flagged then StatusAfter(status, false) else status
  }

  /** A row gains exactly these codes and keeps everything else it says. */
  predicate Gains(before: PreviewRow, after: PreviewRow, codes: set<Code>) {
    && Codes(after.messages) == Codes(before.messages) + codes
    && after == before.(messages := after.messages, status := StatusWith(before.status, codes != {}))
  }

  /** As `Gains`, where the new codes come after the messages already there. */
  predicate Marked(before: PreviewRow, after: PreviewRow, codes: set<Code>) {
    Gains(before, after, codes) && before.messages <= after.messages
  }

  lemma FlaggedMarked(was: PreviewRow, row: PreviewRow, codes: set<Code>, code: Code)
    requires Marked(was, row, codes)
    ensures Marked(was, Flagged(row, code, false), codes + {code})
  {
    WithCodeAdds(row.messages, code);
  }

  lemma GainsTwice(was: PreviewRow, between: PreviewRow, row: PreviewRow, first: set<Code>, second: set<Code>)
    requires Gains(was, between, first) && Gains(between, row, second)
    ensures Gains(was, row, first + second)
  {
  }

  /** The stays named by the first message with a code. */
  function NamedBy(messages: seq<Message>, code: Code): seq<string> {
    if messages == [] then []
    else if messages[0].code == code then messages[0].stayIds
    else NamedBy(messages[1..], code)
  }

  function FirstIds(stays: seq<ConflictStay>): seq<string> {
    seq(if |stays| <= NAMED_STAYS then |stays| else NAMED_STAYS, i requires 0 <= i < |stays| => stays[i].id)
  }

  lemma {:induction false} NamedByWithStays(messages: seq<Message>, code: Code, stayIds: seq<string>)
    requires HasCode(messages, code)
    ensures NamedBy(WithStays(messages, code, stayIds), code) == stayIds
  {
    if messages[0].code != code {
      NamedByWithStays(messages[1..], code, stayIds);
    }
  }

  lemma {:induction false} NamedByKept(messages: seq<Message>, more: seq<Message>, code: Code)
    requires HasCode(messages, code) && messages <= more
    ensures NamedBy(more, code) == NamedBy(messages, code)
  {
    assert more[0] == messages[0];
    if messages[0].code != code {
      NamedByKept(messages[1..], more[1..], code);
    }
  }

  // ---------------------------------------------------------------- sorting a group

  predicate SortedByFrom(s: seq<Entry>) {
    forall i, j :: 0 <= i < j < |s| ==> s[i].from <= s[j].from
  }

  function Insert(s: seq<Entry>, e: Entry): seq<Entry> {
    if s == [] || s[|s| - 1].from <= e.from then s + [e] else Insert(s[..|s| - 1], e) + [s[|s| - 1]]
  }

  /** The stable sort of a group by arrival. */
  function SortByFrom(s: seq<Entry>): seq<Entry> {
    if s == [] then [] else Insert(SortByFrom(s[..|s| - 1]), s[|s| - 1])
  }

  lemma {:induction false} InsertPermutes(s: seq<Entry>, e: Entry)
    ensures multiset(Insert(s, e)) == multiset(s) + multiset{e}
  {
    if s != [] && s[|s| - 1].from > e.from {
      InsertPermutes(s[..|s| - 1], e);
      assert s == s[..|s| - 1] + [s[|s| - 1]];
    }
  }

  lemma {:induction false} InsertSorts(s: seq<Entry>, e: Entry)
    requires SortedByFrom(s)
    ensures SortedByFrom(Insert(s, e))
  {
    if s != [] && s[|s| - 1].from > e.from {
      var front, last := s[..|s| - 1], s[|s| - 1];
      InsertSorts(front, e);
      InsertPermutes(front, e);
      forall i | 0 <= i < |Insert(front, e)| ensures Insert(front, e)[i].from <= last.from {
        assert Insert(front, e)[i] in multiset(Insert(front, e));
      }
    }
  }

  lemma {:induction false} SortByFromSorts(s: seq<Entry>)
    ensures SortedByFrom(SortByFrom(s)) && multiset(SortByFrom(s)) == multiset(s)
  {
    if s != [] {
      assert s == s[..|s| - 1] + [s[|s| - 1]];
      SortByFromSorts(s[..|s| - 1]);
      InsertSorts(SortByFrom(s[..|s| - 1]), s[|s| - 1]);
      InsertPermutes(SortByFrom(s[..|s| - 1]), s[|s| - 1]);
    }
  }

  // ---------------------------------------------------------------- sweeping one group

  predicate DistinctEntries(s: seq<Entry>) {
    forall i, j :: 0 <= i < j < |s| ==> s[i].at != s[j].at
  }

  /** Entries are distinct rows of the roster with a proper range. */
  predicate WellFormed(s: seq<Entry>, rows: seq<PreviewRow>) {
    && DistinctEntries(s)
    && forall i :: 0 <= i < |s| ==> s[i].at < |rows| && rows[s[i].at].data.Some? && s[i].from < s[i].to
  }

  function EntryCode(rows: seq<PreviewRow>, a: Entry, b: Entry): Code
    requires a.at < |rows| && rows[a.at].data.Some? && b.at < |rows| && rows[b.at].data.Some?
  {
    PairCode(rows[a.at].data.value, rows[b.at].data.value)
  }

  predicate Meets(e: Entry, f: Entry) {
    f.at != e.at && Intersects(Bounds(e.from, e.to), Bounds(f.from, f.to))
  }

  /** The codes a member of a group deserves for the other members it meets. */
  ghost function GroupCodes(s: seq<Entry>, rows: seq<PreviewRow>, e: Entry): set<Code>
    requires WellFormed(s, rows) && e in s
  {
    set f | f in s && Meets(e, f) :: EntryCode(rows, e, f)
  }

  /** The sweep has compared positions a and b by the time it stands at (i, j),
      and found that they overlap. */
  predicate Met(s: seq<Entry>, a: nat, b: nat, i: nat, j: nat)
    requires a < |s| && b < |s|
  {
    if a < b then (a < i || (a == i && b < j)) && s[b].from < s[a].to
    else if b < a then (b < i || (b == i && a < j)) && s[a].from < s[b].to
    else false
  }

  ghost function SeenCodes(s: seq<Entry>, rows: seq<PreviewRow>, k: nat, i: nat, j: nat): set<Code>
    requires WellFormed(s, rows) && k < |s|
  {
    set m | 0 <= m < |s| && Met(s, k, m, i, j) :: EntryCode(rows, s[k], s[m])
  }

  lemma SeenStep(s: seq<Entry>, rows: seq<PreviewRow>, i: nat, j: nat, k: nat)
    requires WellFormed(s, rows) && i < j < |s| && k < |s| && s[j].from < s[i].to
    ensures var code := EntryCode(rows, s[i], s[j]);
            SeenCodes(s, rows, k, i, j + 1)
            == SeenCodes(s, rows, k, i, j) + (if k == i || k == j then {code} else {})
  {
    forall m | 0 <= m < |s| && Met(s, k, m, i, j) ensures Met(s, k, m, i, j + 1) {
    }
    forall m | 0 <= m < |s| && Met(s, k, m, i, j + 1) && !Met(s, k, m, i, j)
      ensures (k == i && m == j) || (k == j && m == i)
    {
    }
    if k == i { assert Met(s, k, j, i, j + 1); }
    if k == j { assert Met(s, k, i, i, j + 1); }
  }

  /** Leaving the inner loop early loses nothing: every later member starts later. */
  lemma SeenRow(s: seq<Entry>, rows: seq<PreviewRow>, i: nat, j: nat, k: nat)
    requires WellFormed(s, rows) && SortedByFrom(s) && i < j <= |s| && k < |s|
    requires j == |s| || s[i].to <= s[j].from
    ensures SeenCodes(s, rows, k, i, j) == SeenCodes(s, rows, k, i + 1, i + 2)
  {
    forall m | 0 <= m < |s| ensures Met(s, k, m, i, j) == Met(s, k, m, i + 1, i + 2) {
      if j <= k && m == i { assert s[j].from <= s[k].from; }
      if j <= m && k == i { assert s[j].from <= s[m].from; }
    }
  }

  lemma SeenAll(s: seq<Entry>, rows: seq<PreviewRow>, k: nat)
    requires WellFormed(s, rows) && SortedByFrom(s) && k < |s|
    ensures SeenCodes(s, rows, k, |s|, |s| + 1) == GroupCodes(s, rows, s[k])
  {
    var seen, all := SeenCodes(s, rows, k, |s|, |s| + 1), GroupCodes(s, rows, s[k]);
    forall m | 0 <= m < |s| ensures Met(s, k, m, |s|, |s| + 1) <==> Meets(s[k], s[m]) {
    }
    forall c | c in all ensures c in seen {
      var f :| f in s && Meets(s[k], f) && EntryCode(rows, s[k], f) == c;
      var m :| 0 <= m < |s| && s[m] == f;
      assert Met(s, k, m, |s|, |s| + 1);
    }
    forall c | c in seen ensures c in all {
      var m :| 0 <= m < |s| && Met(s, k, m, |s|, |s| + 1) && EntryCode(rows, s[k], s[m]) == c;
      assert s[m] in s;
    }
  }

  lemma SortedGroup(group: seq<Entry>, rows: seq<PreviewRow>)
    requires WellFormed(group, rows)
    ensures var s := SortByFrom(group);
            && WellFormed(s, rows) && SortedByFrom(s)
            && (forall e :: e in s <==> e in group)
            && forall e :: e in group ==> GroupCodes(s, rows, e) == GroupCodes(group, rows, e)
  {
    var s := SortByFrom(group);
    SortByFromSorts(group);
    forall e ensures e in s <==> e in group {
      assert e in multiset(s) <==> e in multiset(group);
    }
    forall i, j | 0 <= i < j < |s| ensures s[i].at != s[j].at {
      if s[i].at == s[j].at {
        SameRowSameEntry(group, s[i], s[j]);
        RepeatedTwice(s, i, j);
        DistinctOnce(group, s[i]);
        assert false;
      }
    }
    forall i | 0 <= i < |s| ensures s[i].at < |rows| && rows[s[i].at].data.Some? && s[i].from < s[i].to {
      assert s[i] in group;
    }
  }

  lemma SameRowSameEntry(group: seq<Entry>, a: Entry, b: Entry)
    requires DistinctEntries(group) && a in group && b in group && a.at == b.at
    ensures a == b
  {
    var i :| 0 <= i < |group| && group[i] == a;
    var j :| 0 <= j < |group| && group[j] == b;
    assert i == j;
  }

  lemma RepeatedTwice(s: seq<Entry>, i: nat, j: nat)
    requires i < j < |s| && s[i] == s[j]
    ensures multiset(s)[s[i]] >= 2
  {
    assert s == s[..i] + [s[i]] + s[i + 1..j] + [s[j]] + s[j + 1..];
  }

  lemma DistinctOnce(s: seq<Entry>, e: Entry)
    requires DistinctEntries(s) && e in s
    ensures multiset(s)[e] == 1
  {
    var i :| 0 <= i < |s| && s[i] == e;
    assert s == s[..i] + [e] + s[i + 1..];
    assert e !in s[..i] && e !in s[i + 1..];
  }

  /** The rows a group holds. */
  function Positions(s: seq<Entry>): set<nat> {
    if s == [] then {} else {s[0].at} + Positions(s[1..])
  }

  lemma {:induction false} PositionsMeans(s: seq<Entry>)
    ensures forall r :: r in Positions(s) <==> exists e :: e in s && e.at == r
  {
    if s != [] {
      PositionsMeans(s[1..]);
      assert s == [s[0]] + s[1..];
    }
  }

  lemma {:induction false} PositionHeld(s: seq<Entry>, i: nat)
    requires i < |s|
    ensures s[i].at in Positions(s)
  {
    if i > 0 {
      PositionHeld(s[1..], i - 1);
    }
  }

  ghost predicate MemberSwept(was: seq<PreviewRow>, rows: seq<PreviewRow>, s: seq<Entry>, k: nat, i: nat, j: nat)
    requires WellFormed(s, was) && |rows| == |was| && k < |s|
  {
    Marked(was[s[k].at], rows[s[k].at], SeenCodes(s, was, k, i, j))
  }

  /** The roster after the sweep compared everything before (i, j). */
  ghost predicate Swept(was: seq<PreviewRow>, rows: seq<PreviewRow>, s: seq<Entry>, i: nat, j: nat) {
    && WellFormed(s, was) && |rows| == |was|
    && (forall k {:trigger MemberSwept(was, rows, s, k, i, j)} :: 0 <= k < |s| ==> MemberSwept(was, rows, s, k, i, j))
    && (forall r :: 0 <= r < |rows| && r !in Positions(s) ==> rows[r] == was[r])
  }

  function FlaggedPair(rows: seq<PreviewRow>, x: nat, y: nat, code: Code): seq<PreviewRow>
    requires x < |rows| && y < |rows|
  {
    var once := rows[x := Flagged(rows[x], code, false)];
    once[y := Flagged(once[y], code, false)]
  }

  lemma SweptStepMember(was: seq<PreviewRow>, rows: seq<PreviewRow>, s: seq<Entry>, i: nat, j: nat, k: nat)
    requires Swept(was, rows, s, i, j)
    requires i < j < |s| && s[j].from < s[i].to && k < |s|
    ensures var after := FlaggedPair(rows, s[i].at, s[j].at, EntryCode(was, s[i], s[j]));
            MemberSwept(was, after, s, k, i, j + 1)
  {
    var code := EntryCode(was, s[i], s[j]);
    var after := FlaggedPair(rows, s[i].at, s[j].at, code);
    assert MemberSwept(was, rows, s, k, i, j);
    SeenStep(s, was, i, j, k);
    var seen := SeenCodes(s, was, k, i, j);
    if k == i || k == j {
      FlaggedMarked(was[s[k].at], rows[s[k].at], seen, code);
      assert after[s[k].at] == Flagged(rows[s[k].at], code, false);
    } else {
      assert after[s[k].at] == rows[s[k].at];
      assert seen + {} == seen;
    }
  }

  lemma SweptData(was: seq<PreviewRow>, rows: seq<PreviewRow>, s: seq<Entry>, i: nat, j: nat, k: nat)
    requires Swept(was, rows, s, i, j) && k < |s|
    ensures rows[s[k].at].data == was[s[k].at].data
  {
    assert MemberSwept(was, rows, s, k, i, j);
  }

  lemma SweptStep(was: seq<PreviewRow>, rows: seq<PreviewRow>, s: seq<Entry>, i: nat, j: nat)
    requires Swept(was, rows, s, i, j)
    requires i < j < |s| && s[j].from < s[i].to
    ensures Swept(was, FlaggedPair(rows, s[i].at, s[j].at, EntryCode(was, s[i], s[j])), s, i, j + 1)
  {
    var after, next := FlaggedPair(rows, s[i].at, s[j].at, EntryCode(was, s[i], s[j])), j + 1;
    forall k | 0 <= k < |s| ensures MemberSwept(was, after, s, k, i, next) {
      SweptStepMember(was, rows, s, i, j, k);
    }
    PositionHeld(s, i);
    PositionHeld(s, j);
  }

  lemma SweptRow(was: seq<PreviewRow>, rows: seq<PreviewRow>, s: seq<Entry>, i: nat, j: nat)
    requires Swept(was, rows, s, i, j) && SortedByFrom(s)
    requires i < j <= |s| && (j == |s| || s[i].to <= s[j].from)
    ensures Swept(was, rows, s, i + 1, i + 2)
  {
    var down, right := i + 1, i + 2;
    forall k | 0 <= k < |s| ensures MemberSwept(was, rows, s, k, down, right) {
      assert MemberSwept(was, rows, s, k, i, j);
      SeenRow(s, was, i, j, k);
    }
  }

  lemma SweptStart(rows: seq<PreviewRow>, s: seq<Entry>)
    requires WellFormed(s, rows)
    ensures Swept(rows, rows, s, 0, 1)
  {
    forall k | 0 <= k < |s| ensures MemberSwept(rows, rows, s, k, 0, 1) {
      assert SeenCodes(s, rows, k, 0, 1) == {};
      assert Codes(rows[s[k].at].messages) + {} == Codes(rows[s[k].at].messages);
    }
  }

  /** What a whole sweep leaves on the roster. */
  ghost predicate GroupMarked(was: seq<PreviewRow>, rows: seq<PreviewRow>, group: seq<Entry>) {
    && WellFormed(group, was) && |rows| == |was|
    && (forall e :: e in group ==> Marked(was[e.at], rows[e.at], GroupCodes(group, was, e)))
    && (forall r :: 0 <= r < |rows| && r !in Positions(group) ==> rows[r] == was[r])
  }

  lemma SweptEnd(was: seq<PreviewRow>, rows: seq<PreviewRow>, group: seq<Entry>, s: seq<Entry>)
    requires WellFormed(group, was) && WellFormed(s, was) && SortedByFrom(s) && (forall e :: e in s <==> e in group)
    requires forall e :: e in group ==> GroupCodes(s, was, e) == GroupCodes(group, was, e)
    requires Swept(was, rows, s, |s|, |s| + 1)
    ensures GroupMarked(was, rows, group)
  {
    forall e | e in group ensures Marked(was[e.at], rows[e.at], GroupCodes(group, was, e)) {
      var k :| 0 <= k < |s| && s[k] == e;
      assert MemberSwept(was, rows, s, k, |s|, |s| + 1);
      SeenAll(s, was, k);
    }
    PositionsMeans(s);
    PositionsMeans(group);
  }

  /** The comparison of two overlapping rows, and both flags. */
  method FlagPair(roster: Roster, left: nat, right: nat)
    requires left < |roster.rows| && right < |roster.rows| && left != right
    requires roster.rows[left].data.Some? && roster.rows[right].data.Some?
    modifies roster
    ensures var was := old(roster.rows);
            roster.rows == FlaggedPair(was, left, right, PairCode(was[left].data.value, was[right].data.value))
  {
    var a, b := roster.rows[left].data.value, roster.rows[right].data.value;
    var exact := && a.guestName.Some? && a.guestName == b.guestName
                 && a.checkInAt.Some? && a.checkInAt == b.checkInAt
                 && a.checkOutAt.Some? && a.checkOutAt == b.checkOutAt;
    roster.Flag(left, if exact then DuplicateSourceRow else SourceStayOverlap, false);
    roster.Flag(right, if exact then DuplicateSourceRow else SourceStayOverlap, false);
  }

  /** Compares the i-th member of a sorted group with those after it that start
      before it ends. */
  method SweepMember(roster: Roster, group: seq<Entry>, i: nat, ghost was: seq<PreviewRow>)
    requires i < |group| && SortedByFrom(group) && Swept(was, roster.rows, group, i, i + 1)
    modifies roster
    ensures Swept(was, roster.rows, group, i + 1, i + 2)
  {
    var j := i + 1;
    while j < |group| && group[j].from < group[i].to
      invariant i < j <= |group|
      invariant Swept(was, roster.rows, group, i, j)
    {
      assert group[i].at != group[j].at;
      SweptData(was, roster.rows, group, i, j, i);
      SweptData(was, roster.rows, group, i, j, j);
      SweptStep(was, roster.rows, group, i, j);
      FlagPair(roster, group[i].at, group[j].at);
      j := j + 1;
    }
    SweptRow(was, roster.rows, group, i, j);
  }

  /** Sorts a group and sweeps it: the members end up with the codes of the
      all-pairs comparison. */
  method SweepGroup(roster: Roster, unsorted: seq<Entry>)
    requires WellFormed(unsorted, roster.rows)
    modifies roster
    ensures GroupMarked(old(roster.rows), roster.rows, unsorted)
  {
    ghost var was := roster.rows;
    var group := SortByFrom(unsorted);
    SortedGroup(unsorted, was);
    SweptStart(was, group);
    var i := 0;
    while i < |group|
      invariant 0 <= i <= |group|
      invariant Swept(was, roster.rows, group, i, i + 1)
    {
      SweepMember(roster, group, i, was);
      i := i + 1;
    }
    SweptEnd(was, roster.rows, unsorted, group);
  }

  // ---------------------------------------------------------------- the whole check

  function EntryOf(rows: seq<PreviewRow>, at: nat): Entry
    requires at < |rows| && Checked(rows[at])
  {
    Entry(at, BoundsOf(rows[at]).value.from, BoundsOf(rows[at]).value.to)
  }

  predicate Belongs(row: PreviewRow, key: string) {
    Checked(row) && GroupKey(row) == key
  }

  /** The group of a key among the first n rows, in roster order. */
  function Members(rows: seq<PreviewRow>, n: nat, key: string): seq<Entry>
    requires n <= |rows|
  {
    if n == 0 then []
    else Members(rows, n - 1, key) + (if Belongs(rows[n - 1], key) then [EntryOf(rows, n - 1)] else [])
  }

  lemma {:induction false} MembersMean(rows: seq<PreviewRow>, n: nat, key: string)
    requires n <= |rows|
    ensures forall e :: e in Members(rows, n, key)
                        <==> e.at < n && Belongs(rows[e.at], key) && e == EntryOf(rows, e.at)
    ensures WellFormed(Members(rows, n, key), rows)
  {
    if n > 0 {
      MembersMean(rows, n - 1, key);
      var front := Members(rows, n - 1, key);
      forall i | 0 <= i < |front| ensures front[i].at < n - 1 {
        assert front[i] in front;
      }
    }
  }

  predicate SameData(was: seq<PreviewRow>, rows: seq<PreviewRow>) {
    |rows| == |was| && forall k :: 0 <= k < |was| ==> rows[k].data == was[k].data
  }

  /** Meeting inside the group of a key is being rivals in the roster. */
  lemma GroupCodesAreSourceCodes(was: seq<PreviewRow>, rows: seq<PreviewRow>, key: string, k: nat)
    requires SameData(was, rows) && k < |was| && Belongs(was[k], key)
    requires var group := Members(was, |was|, key); WellFormed(group, rows) && EntryOf(was, k) in group
    ensures GroupCodes(Members(was, |was|, key), rows, EntryOf(was, k)) == SourceCodes(was, k)
  {
    var group, e := Members(was, |was|, key), EntryOf(was, k);
    MembersMean(was, |was|, key);
    var codes, source := GroupCodes(group, rows, e), SourceCodes(was, k);
    forall c | c in codes ensures c in source {
      var f :| f in group && Meets(e, f) && EntryCode(rows, e, f) == c;
      assert Rivals(was, k, f.at);
    }
    forall c | c in source ensures c in codes {
      var j :| 0 <= j < |was| && Rivals(was, k, j) && PairCode(was[k].data.value, was[j].data.value) == c;
      var f := EntryOf(was, j);
      assert f in group && Meets(e, f) && EntryCode(rows, e, f) == c;
    }
  }

  /** What a row has gained once it was compared with the registered stays. */
  ghost predicate Compared(was: PreviewRow, row: PreviewRow, stays: seq<ConflictStay>) {
    && Gains(was, row, ExistingCodes(was, stays))
    && (ExistingStayOverlap in ExistingCodes(was, stays) ==>
          NamedBy(row.messages, ExistingStayOverlap) == FirstIds(Conflicts(was, stays)))
  }

  function Named(row: PreviewRow, stays: seq<ConflictStay>): PreviewRow
    requires Checked(row)
  {
    Naming(Flagged(row, ExistingStayOverlap, false), ExistingStayOverlap, FirstIds(Conflicts(row, stays)))
  }

  predicate Copied(row: PreviewRow, stays: seq<ConflictStay>)
    requires Checked(row)
  {
    exists s :: s in Conflicts(row, stays) && SameStay(row.data.value, s)
  }

  /** The row after the comparison with the registered stays. */
  function ComparedRow(row: PreviewRow, stays: seq<ConflictStay>): PreviewRow {
    if !Checked(row) || Conflicts(row, stays) == [] then row
    else if Copied(row, stays) then Flagged(Named(row, stays), PossibleExistingDuplicate, false)
    else Named(row, stays)
  }

  lemma NamedMeans(row: PreviewRow, stays: seq<ConflictStay>)
    requires Checked(row) && Conflicts(row, stays) != []
    ensures HasCode(Flagged(row, ExistingStayOverlap, false).messages, ExistingStayOverlap)
    ensures var named := Named(row, stays);
            && Gains(row, named, {ExistingStayOverlap})
            && HasCode(named.messages, ExistingStayOverlap)
            && NamedBy(named.messages, ExistingStayOverlap) == FirstIds(Conflicts(row, stays))
  {
    var flagged := Flagged(row, ExistingStayOverlap, false);
    var ids := FirstIds(Conflicts(row, stays));
    WithCodeAdds(row.messages, ExistingStayOverlap);
    assert ExistingStayOverlap in Codes(flagged.messages);
    WithStaysKeepsCodes(flagged.messages, ExistingStayOverlap, ids);
    NamedByWithStays(flagged.messages, ExistingStayOverlap, ids);
    assert ExistingStayOverlap in Codes(Named(row, stays).messages);
  }

  lemma ComparedRowMeans(row: PreviewRow, stays: seq<ConflictStay>)
    ensures Compared(row, ComparedRow(row, stays), stays)
  {
    if !Checked(row) || Conflicts(row, stays) == [] {
      if Checked(row) {
        forall s | s in stays ensures !Hits(row, s) {
          assert s !in Conflicts(row, stays);
        }
      }
      assert ExistingCodes(row, stays) == {};
      assert Codes(row.messages) + {} == Codes(row.messages);
    } else {
      assert Conflicts(row, stays)[0] in Conflicts(row, stays);
      NamedMeans(row, stays);
      if Copied(row, stays) {
        CopiedMeans(row, Named(row, stays), stays);
      } else {
        assert ExistingCodes(row, stays) == {ExistingStayOverlap};
      }
    }
  }

  lemma CopiedMeans(row: PreviewRow, named: PreviewRow, stays: seq<ConflictStay>)
    requires Checked(row) && Conflicts(row, stays) != [] && Copied(row, stays)
    requires Gains(row, named, {ExistingStayOverlap}) && HasCode(named.messages, ExistingStayOverlap)
    requires NamedBy(named.messages, ExistingStayOverlap) == FirstIds(Conflicts(row, stays))
    ensures Compared(row, Flagged(named, PossibleExistingDuplicate, false), stays)
  {
    WithCodeAdds(named.messages, PossibleExistingDuplicate);
    NamedByKept(named.messages, Flagged(named, PossibleExistingDuplicate, false).messages, ExistingStayOverlap);
    assert ExistingCodes(row, stays) == {ExistingStayOverlap} + {PossibleExistingDuplicate};
  }

  /** Compares one row with the registered stays. */
  method CompareWithStays(roster: Roster, at: nat, stays: seq<ConflictStay>)
    requires at < |roster.rows| && Checked(roster.rows[at])
    modifies roster
    ensures roster.rows == old(roster.rows)[at := ComparedRow(old(roster.rows)[at], stays)]
  {
    var row := roster.rows[at];
    var conflicts := Conflicts(row, stays);
    if conflicts != [] {
      NamedMeans(row, stays);
      roster.Flag(at, ExistingStayOverlap, false);
      roster.NameStays(at, ExistingStayOverlap, FirstIds(conflicts));
      if exists s :: s in conflicts && SameStay(row.data.value, s) {
        roster.Flag(at, PossibleExistingDuplicate, false);
      }
    }
  }

  // The roster after the first pass and after some of the sweeps.

  ghost predicate FirstPass(was: seq<PreviewRow>, rows: seq<PreviewRow>, stays: seq<ConflictStay>, n: nat) {
    && |rows| == |was|
    && forall k :: 0 <= k < |was| ==> rows[k] == if k < n then ComparedRow(was[k], stays) else was[k]
  }

  predicate GroupedKey(was: seq<PreviewRow>, groups: map<string, seq<Entry>>, order: seq<string>, n: nat,
                       key: string)
    requires n <= |was|
  {
    && (key in groups <==> Members(was, n, key) != [])
    && (key in groups ==> groups[key] == Members(was, n, key))
    && (key in groups <==> key in order)
  }

  /** A key is new when it enters the order. */
  predicate Enters(order: seq<string>, i: nat)
    requires i < |order|
  {
    order[i] !in order[..i]
  }

  ghost predicate Grouped(was: seq<PreviewRow>, groups: map<string, seq<Entry>>, order: seq<string>, n: nat) {
    && n <= |was|
    && (forall key: string {:trigger GroupedKey(was, groups, order, n, key)} :: GroupedKey(was, groups, order, n, key))
    && (forall i {:trigger Enters(order, i)} :: 0 <= i < |order| ==> Enters(order, i))
  }

  function Pushed(groups: map<string, seq<Entry>>, key: string, e: Entry): map<string, seq<Entry>> {
    groups[key := (if key in groups then groups[key] else []) + [e]]
  }

  lemma GroupedStep(was: seq<PreviewRow>, groups: map<string, seq<Entry>>, order: seq<string>, n: nat)
    requires n < |was| && Grouped(was, groups, order, n)
    ensures !Checked(was[n]) ==> Grouped(was, groups, order, n + 1)
    ensures Checked(was[n]) ==>
              var key := GroupKey(was[n]);
              Grouped(was, Pushed(groups, key, EntryOf(was, n)), if key in groups then order else order + [key], n + 1)
  {
    var next, mine := n + 1, GroupKey(was[n]);
    var groups', order' := if Checked(was[n]) then Pushed(groups, mine, EntryOf(was, n)) else groups,
                           if Checked(was[n]) && mine !in groups then order + [mine] else order;
    forall key: string ensures GroupedKey(was, groups', order', next, key) {
      assert GroupedKey(was, groups, order, n, key);
    }
    forall i | 0 <= i < |order'| ensures Enters(order', i) {
      if i < |order| {
        assert Enters(order, i);
        assert order'[..i] == order[..i];
      } else {
        assert GroupedKey(was, groups, order, n, mine);
        assert order'[..i] == order;
      }
    }
  }

  lemma FirstPassStep(was: seq<PreviewRow>, rows: seq<PreviewRow>, stays: seq<ConflictStay>, n: nat)
    requires n < |was| && FirstPass(was, rows, stays, n)
    ensures rows[n] == was[n]
    ensures !Checked(was[n]) ==> FirstPass(was, rows, stays, n + 1)
    ensures FirstPass(was, rows[n := ComparedRow(was[n], stays)], stays, n + 1)
  {
  }

  /** The first pass: groups the rows and compares each with the registered
      stays. Groups keep the order in which their first rows appear. */
  method GroupRows(roster: Roster, stays: seq<ConflictStay>)
    returns (groups: map<string, seq<Entry>>, order: seq<string>)
    modifies roster
    ensures FirstPass(old(roster.rows), roster.rows, stays, |old(roster.rows)|)
    ensures Grouped(old(roster.rows), groups, order, |old(roster.rows)|)
  {
    ghost var was := roster.rows;
    groups, order := map[], [];
    var i := 0;
    while i < |roster.rows|
      invariant 0 <= i <= |was|
      invariant FirstPass(was, roster.rows, stays, i)
      invariant Grouped(was, groups, order, i)
    {
      GroupedStep(was, groups, order, i);
      FirstPassStep(was, roster.rows, stays, i);
      var row := roster.rows[i];
      var bounds := BoundsOf(row);
      if row.action != Skip && bounds.Some? {
        var key := GroupKey(row);
        order := if key in groups then order else order + [key];
        groups := Pushed(groups, key, Entry(i, bounds.value.from, bounds.value.to));
        CompareWithStays(roster, i, stays);
      }
      i := i + 1;
    }
  }

  /** The rows whose group was swept carry their source codes, the others are as
      the first pass left them. */
  ghost predicate SecondPassRow(was: seq<PreviewRow>, mid: PreviewRow, row: PreviewRow, k: nat, done: seq<string>)
    requires k < |was|
  {
    if Checked(was[k]) && GroupKey(was[k]) in done then Marked(mid, row, SourceCodes(was, k)) else row == mid
  }

  ghost predicate SecondPass(was: seq<PreviewRow>, mid: seq<PreviewRow>, rows: seq<PreviewRow>, done: seq<string>) {
    && |was| == |mid| == |rows|
    && forall k {:trigger SecondPassRow(was, mid[k], rows[k], k, done)} :: 0 <= k < |was| ==>
         SecondPassRow(was, mid[k], rows[k], k, done)
  }

  lemma SecondPassStep(was: seq<PreviewRow>, mid: seq<PreviewRow>, rows: seq<PreviewRow>, after: seq<PreviewRow>,
                       done: seq<string>, key: string)
    requires SecondPass(was, mid, rows, done) && key !in done
    requires SameData(was, rows) && GroupMarked(rows, after, Members(was, |was|, key))
    ensures SecondPass(was, mid, after, done + [key])
    ensures SameData(was, after)
  {
    var group, more := Members(was, |was|, key), done + [key];
    MembersMean(was, |was|, key);
    PositionsMeans(group);
    forall k | 0 <= k < |was|
      ensures SecondPassRow(was, mid[k], after[k], k, more) && after[k].data == was[k].data
    {
      assert SecondPassRow(was, mid[k], rows[k], k, done);
      if Belongs(was[k], key) {
        assert EntryOf(was, k) in group;
        GroupCodesAreSourceCodes(was, rows, key, k);
      } else {
        assert k !in Positions(group);
      }
    }
  }

  lemma GroupWellFormed(was: seq<PreviewRow>, rows: seq<PreviewRow>, key: string)
    requires SameData(was, rows)
    ensures WellFormed(Members(was, |was|, key), rows)
  {
    MembersMean(was, |was|, key);
  }

  /** The second pass: sweeps every group. */
  method SweepGroups(roster: Roster, groups: map<string, seq<Entry>>, order: seq<string>,
                     ghost was: seq<PreviewRow>)
    requires Grouped(was, groups, order, |was|) && SameData(was, roster.rows)
    modifies roster
    ensures SecondPass(was, old(roster.rows), roster.rows, order)
  {
    ghost var mid := roster.rows;
    var i := 0;
    while i < |order|
      invariant 0 <= i <= |order|
      invariant SameData(was, roster.rows) && SecondPass(was, mid, roster.rows, order[..i])
    {
      var key := order[i];
      assert GroupedKey(was, groups, order, |was|, key) && Enters(order, i);
      GroupWellFormed(was, roster.rows, key);
      ghost var rows := roster.rows;
      SweepGroup(roster, groups[key]);
      SecondPassStep(was, mid, rows, roster.rows, order[..i], key);
      assert order[..i + 1] == order[..i] + [key];
      i := i + 1;
    }
    assert order[..i] == order;
  }

  /** A row's whole outcome. */
  ghost predicate Outcome(was: seq<PreviewRow>, row: PreviewRow, stays: seq<ConflictStay>, k: nat)
    requires k < |was|
  {
    && Gains(was[k], row, ConflictCodes(was, stays, k))
    && (ExistingStayOverlap in ExistingCodes(was[k], stays) ==>
          NamedBy(row.messages, ExistingStayOverlap) == FirstIds(Conflicts(was[k], stays)))
  }

  lemma NoRivals(rows: seq<PreviewRow>, k: nat)
    requires k < |rows| && !Checked(rows[k])
    ensures SourceCodes(rows, k) == {}
  {
    forall j | 0 <= j < |rows| ensures !Rivals(rows, k, j) {
    }
  }

  lemma SecondPassOutcome(was: seq<PreviewRow>, mid: PreviewRow, row: PreviewRow, stays: seq<ConflictStay>, k: nat,
                          groups: map<string, seq<Entry>>, order: seq<string>)
    requires k < |was| && Grouped(was, groups, order, |was|)
    requires mid == ComparedRow(was[k], stays) && SecondPassRow(was, mid, row, k, order)
    ensures Outcome(was, row, stays, k)
  {
    ComparedRowMeans(was[k], stays);
    if Checked(was[k]) {
      var key := GroupKey(was[k]);
      MembersMean(was, |was|, key);
      assert EntryOf(was, k) in Members(was, |was|, key);
      assert GroupedKey(was, groups, order, |was|, key);
      GainsTwice(was[k], mid, row, ExistingCodes(was[k], stays), SourceCodes(was, k));
      if ExistingStayOverlap in ExistingCodes(was[k], stays) {
        assert ExistingStayOverlap in Codes(mid.messages);
        NamedByKept(mid.messages, row.messages, ExistingStayOverlap);
      }
    } else {
      NoRivals(was, k);
      assert ExistingCodes(was[k], stays) + {} == ExistingCodes(was[k], stays);
    }
  }

  /** Marks every row of a roster: a row gains exactly the codes it deserves, and
      nothing else about it changes. */
  method CheckRosterConflicts(roster: Roster, stays: seq<ConflictStay>)
    modifies roster
    ensures |roster.rows| == |old(roster.rows)|
    ensures forall k :: 0 <= k < |roster.rows| ==> Outcome(old(roster.rows), roster.rows[k], stays, k)
  {
    ghost var was := roster.rows;
    var groups, order := GroupRows(roster, stays);
    ghost var mid := roster.rows;
    forall k | 0 <= k < |was| ensures mid[k].data == was[k].data {
      ComparedRowMeans(was[k], stays);
    }
    SweepGroups(roster, groups, order, was);
    forall k | 0 <= k < |was| ensures Outcome(was, roster.rows[k], stays, k) {
      assert SecondPassRow(was, mid[k], roster.rows[k], k, order);
      SecondPassOutcome(was, mid[k], roster.rows[k], stays, k, groups, order);
    }
  }

  /** Read off the outcome: a row is marked as a copy, respectively as overlapping,
      exactly when some other row of its group intersects it and is, respectively
      is not, an exact copy. Rows that are skipped or have no range gain nothing. */
  lemma MarkedExactly(was: seq<PreviewRow>, row: PreviewRow, stays: seq<ConflictStay>, k: nat)
    requires k < |was| && Outcome(was, row, stays, k)
    requires DuplicateSourceRow !in Codes(was[k].messages) && SourceStayOverlap !in Codes(was[k].messages)
    ensures DuplicateSourceRow in Codes(row.messages) <==>
              exists j :: 0 <= j < |was| && Rivals(was, k, j) && Exact(was[k].data.value, was[j].data.value)
    ensures SourceStayOverlap in Codes(row.messages) <==>
              exists j :: 0 <= j < |was| && Rivals(was, k, j) && !Exact(was[k].data.value, was[j].data.value)
    ensures !Checked(was[k]) ==> Codes(row.messages) == Codes(was[k].messages) && row.status == was[k].status
  {
    if !Checked(was[k]) {
      NoRivals(was, k);
    }
    forall j | 0 <= j < |was| && Rivals(was, k, j)
      ensures PairCode(was[k].data.value, was[j].data.value) in SourceCodes(was, k)
    {
    }
  }
}
