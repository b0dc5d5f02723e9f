/** Reservation codes: preparing, replacing and confirming the room code of a stay,
    and the review that tells whether a saved code still stands. Sealing and
    opening a code are inverse, so a code is kept as itself. */
module StayAccess {
  import opened Wrappers
  import Text

  const MAX_VERSION := 2147483647
  const ATTEMPTS := 64
  const CODES := 1_000_000

  datatype Method = Fixed | Automatic | PhoneLast6

  datatype Action = Prepare | Replace | Confirm

  datatype RevisionKind = CreatedKind | CorrectedKind | CancelledKind | RestoredKind

  datatype Source = Source(phone: Option<string>, guestName: string)

  /** A revision of a stay; the source is absent when its snapshot cannot be read. */
  datatype Revision = Revision(version: int, kind: RevisionKind, source: Option<Source>)

  datatype Stay = Stay(id: string, propertyId: string, revision: int, active: bool, guestName: string,
                       phone: Option<string>, checkInAt: int, checkOutAt: int)

  datatype Settings = Settings(version: int, fixed: bool, fixedCode: Option<string>)

  datatype Code = Code(version: int, way: Method, code: string, sourceRevision: int, settingsVersion: int,
                       preparedAt: int, updatedAt: int)

  datatype CodeEvent = CodeEvent(stayId: string, version: int, action: Action, way: Method, actor: string, at: int)

  datatype World = World(
    stays: map<string, Stay>, revisions: map<string, seq<Revision>>, openProperties: set<string>,
    settings: map<string, Settings>, codes: map<string, Code>, events: seq<CodeEvent>)

  datatype Reason =
    | SourceUnavailable | PhoneChanged | GuestChanged | RestoredSince | ModeChanged | FixedCodeChanged
    | NeighborConflict

  datatype Blocked = StayCancelled | Ended | PropertyInactive | Unconfigured | FixedCodeMissing

  datatype AccessError =
    | InvalidAction | Unauthenticated | StayNotFound | AccessChanged | CodeBlocked | SourceGone
    | ReplacementRequired | FixedRequired | RotatingRequired | PhoneInvalid | CodeUnchanged | CodeConflict
    | GenerationFailed

  // ---------------------------------------------------------------- phone numbers

  predicate Digit(c: char) {
    '0' <= c <= '9'
  }

  predicate Punctuation(c: char) {
    c == ' ' || c == '(' || c == ')' || c == '-'
  }

  function DigitsOf(s: string): string {
    if s == "" then "" else (if Digit(s[0]) then [s[0]] else "") + DigitsOf(s[1..])
  }

  predicate Dialled(s: string) {
    forall i :: 0 <= i < |s| ==> Digit(s[i]) || Punctuation(s[i])
  }

  function PhoneDigits(phone: Option<string>): Option<string> {
    if phone.None? then None
    else
      var trimmed := Text.Trim(phone.value);
      var body := if trimmed != "" && trimmed[0] == '+' then trimmed[1..] else trimmed;
      if body == "" || !Dialled(body) then None
      else
        var digits := DigitsOf(body);
        if 7 <= |digits| <= 15 then Some(digits) else None
  }

  function PhoneIdentity(phone: Option<string>): Option<string> {
    if PhoneDigits(phone).Some? then PhoneDigits(phone) else phone
  }

  function LastSix(digits: string): string
    requires |digits| >= 6
  {
    digits[|digits| - 6..]
  }

  predicate AllDigits(s: string) {
    forall i :: 0 <= i < |s| ==> Digit(s[i])
  }

  lemma {:induction false} DigitsOfDigits(s: string)
    ensures AllDigits(DigitsOf(s)) && (AllDigits(s) ==> DigitsOf(s) == s)
  {
    if s != "" {
      DigitsOfDigits(s[1..]);
      assert s == [s[0]] + s[1..];
    }
  }

  lemma PhoneDigitsAreDigits(phone: Option<string>)
    requires PhoneDigits(phone).Some?
    ensures AllDigits(PhoneDigits(phone).value) && 7 <= |PhoneDigits(phone).value| <= 15
  {
    var trimmed := Text.Trim(phone.value);
    DigitsOfDigits(if trimmed != "" && trimmed[0] == '+' then trimmed[1..] else trimmed);
  }

  lemma DigitsAreAPhone(digits: string)
    requires AllDigits(digits) && 7 <= |digits| <= 15
    ensures PhoneDigits(Some(digits)) == Some(digits)
  {
    assert Digit(digits[0]) && Digit(digits[|digits| - 1]);
    Text.TrimmedStays(digits);
    DigitsOfDigits(digits);
  }

  /** The digits of a phone number are a number with the same digits: a change of
      spelling is no change of identity. */
  lemma IdentityIsSpellingFree(phone: Option<string>)
    requires PhoneDigits(phone).Some?
    ensures PhoneDigits(PhoneDigits(phone)) == PhoneDigits(phone)
  {
    PhoneDigitsAreDigits(phone);
    DigitsAreAPhone(PhoneDigits(phone).value);
  }

  // ---------------------------------------------------------------- the neighbouring reservations

  predicate Before(w: World, stay: Stay, id: string) {
    && id in w.stays && id != stay.id && w.stays[id].active && w.stays[id].propertyId == stay.propertyId
    && w.stays[id].checkOutAt <= stay.checkInAt
  }

  predicate After(w: World, stay: Stay, id: string) {
    && id in w.stays && id != stay.id && w.stays[id].active && w.stays[id].propertyId == stay.propertyId
    && stay.checkOutAt <= w.stays[id].checkInAt
  }

  /** The reservation that leaves last before a stay arrives; one that arrives first
      after it leaves. Which of several at the same time it is does not matter. */
  ghost predicate IsPrevious(w: World, stay: Stay, previous: Option<string>) {
    match previous
    case None => forall id :: !Before(w, stay, id)
    case Some(p) =>
      Before(w, stay, p) && forall id :: Before(w, stay, id) ==> w.stays[id].checkOutAt <= w.stays[p].checkOutAt
  }

  ghost predicate IsNext(w: World, stay: Stay, next: Option<string>) {
    match next
    case None => forall id :: !After(w, stay, id)
    case Some(n) =>
      After(w, stay, n) && forall id :: After(w, stay, id) ==> w.stays[n].checkInAt <= w.stays[id].checkInAt
  }

  /** What the query for the neighbours returned. */
  datatype Neighbors = Neighbors(previous: Option<string>, next: Option<string>)

  ghost predicate AreNeighbors(w: World, stay: Stay, n: Neighbors) {
    IsPrevious(w, stay, n.previous) && IsNext(w, stay, n.next)
  }

  function CodeOf(w: World, id: Option<string>): seq<string> {
    if id.Some? && id.value in w.codes then [w.codes[id.value].code] else []
  }

  function NeighborCodes(w: World, n: Neighbors): seq<string> {
    CodeOf(w, n.previous) + CodeOf(w, n.next)
  }

  // ---------------------------------------------------------------- the review of a saved code

  function SettingsOf(w: World, stay: Stay): Option<Settings> {
    if stay.propertyId in w.settings then Some(w.settings[stay.propertyId]) else None
  }

  function RevisionsOf(w: World, stay: Stay): seq<Revision> {
    if stay.id in w.revisions then w.revisions[stay.id] else []
  }

  function SourceAt(revisions: seq<Revision>, version: int): Option<Source> {
    if revisions == [] then None
    else if revisions[0].version == version then revisions[0].source else SourceAt(revisions[1..], version)
  }

  predicate RestoredAfter(revisions: seq<Revision>, version: int) {
    exists i :: && 0 <= i < |revisions| && version < revisions[i].version
                && (revisions[i].kind == CancelledKind || revisions[i].kind == RestoredKind)
  }

  function FixedCode(settings: Option<Settings>): Option<string> {
    if settings.Some? && settings.value.fixed then settings.value.fixedCode else None
  }

  predicate IsRotating(settings: Option<Settings>) {
    settings.Some? && !settings.value.fixed
  }

  function SourceReasons(source: Option<Source>, stay: Stay): seq<Reason> {
    if source.None? then [SourceUnavailable]
    else
      (if PhoneIdentity(source.value.phone) != PhoneIdentity(stay.phone) then [PhoneChanged] else [])
      + (if source.value.guestName != stay.guestName then [GuestChanged] else [])
  }

  function ModeReasons(settings: Option<Settings>, saved: Code): seq<Reason> {
    if settings.None? || (saved.way == Fixed) != settings.value.fixed then [ModeChanged]
    else if settings.value.fixed && Some(saved.code) != settings.value.fixedCode then [FixedCodeChanged]
    else []
  }

  function NeighborReasons(w: World, settings: Option<Settings>, saved: Code, n: Neighbors): seq<Reason> {
    if IsRotating(settings) && saved.code in NeighborCodes(w, n) then [NeighborConflict] else []
  }

  function ReviewReasons(w: World, stay: Stay, saved: Code, n: Neighbors): seq<Reason> {
    var settings, revisions := SettingsOf(w, stay), RevisionsOf(w, stay);
    SourceReasons(SourceAt(revisions, saved.sourceRevision), stay)
    + (if stay.active && RestoredAfter(revisions, saved.sourceRevision) then [RestoredSince] else [])
    + ModeReasons(settings, saved) + NeighborReasons(w, settings, saved, n)
  }

  function BlockedReason(w: World, stay: Stay, now: int): Option<Blocked> {
    var settings := SettingsOf(w, stay);
    if !stay.active then Some(StayCancelled)
    else if stay.checkOutAt <= now then Some(Ended)
    else if stay.propertyId !in w.openProperties then Some(PropertyInactive)
    else if settings.None? then Some(Unconfigured)
    else if settings.value.fixed && (FixedCode(settings).None? || FixedCode(settings) == Some(""))
    then Some(FixedCodeMissing)
    else None
  }

  /** A code that is saved and needs no review. */
  predicate IsPrepared(w: World, id: string, n: Neighbors) {
    id in w.stays && id in w.codes && ReviewReasons(w, w.stays[id], w.codes[id], n) == []
  }

  predicate CanConfirm(w: World, stay: Stay, saved: Code, n: Neighbors, now: int) {
    && BlockedReason(w, stay, now).None? && ReviewReasons(w, stay, saved, n) != []
    && forall r :: r in ReviewReasons(w, stay, saved, n) ==>
         r == PhoneChanged || r == GuestChanged || r == RestoredSince
  }

  // ---------------------------------------------------------------- choosing a code

  function Pad(n: nat, width: nat): string {
    if width == 0 then "" else Pad(n / 10, width - 1) + [(n % 10) as char + '0']
  }

  function SixDigits(n: nat): string {
    Pad(n, 6)
  }

  /** The first of the drawn numbers, up to sixty-four, that is not excluded. */
  function FirstFree(draws: seq<nat>, excluded: seq<string>, attempts: nat): Option<string> {
    if attempts == 0 || draws == [] then None
    else if SixDigits(draws[0]) !in excluded then Some(SixDigits(draws[0]))
    else FirstFree(draws[1..], excluded, attempts - 1)
  }

  function Chosen(w: World, stay: Stay, way: Method, previous: Option<string>, n: Neighbors, draws: seq<nat>)
      : Result<string, AccessError>
    requires SettingsOf(w, stay).Some?
  {
    var settings := SettingsOf(w, stay);
    if settings.value.fixed then
      if way != Fixed || FixedCode(settings).None? || FixedCode(settings) == Some("") then Err(FixedRequired)
      else Ok(FixedCode(settings).value)
    else if way == Fixed then Err(RotatingRequired)
    else
      var excluded := NeighborCodes(w, n) + if previous.Some? then [previous.value] else [];
      if way == PhoneLast6 then
        var digits := PhoneDigits(stay.phone);
        if digits.None? then Err(PhoneInvalid)
        else if previous == Some(LastSix(digits.value)) then Err(CodeUnchanged)
        else if LastSix(digits.value) in excluded then Err(CodeConflict)
        else Ok(LastSix(digits.value))
      else
        var free := FirstFree(draws, excluded, ATTEMPTS);
        if free.None? then Err(GenerationFailed) else Ok(free.value)
  }

  lemma {:induction false} FirstFreeIsFree(draws: seq<nat>, excluded: seq<string>, attempts: nat)
    ensures var free := FirstFree(draws, excluded, attempts);
            && (free.Some? ==> free.value !in excluded && |free.value| == 6)
            && (free.None? ==> forall i :: 0 <= i < |draws| && i < attempts ==> SixDigits(draws[i]) in excluded)
  {
    if draws != [] && attempts > 0 {
      PadLength(draws[0], 6);
      FirstFreeIsFree(draws[1..], excluded, attempts - 1);
    }
  }

  lemma {:induction false} PadLength(n: nat, width: nat)
    ensures |Pad(n, width)| == width
  {
    if width > 0 {
      PadLength(n / 10, width - 1);
    }
  }

  lemma {:induction false} PadInjective(a: nat, b: nat, width: nat, limit: nat)
    requires a < limit && b < limit && limit == Power(width) && Pad(a, width) == Pad(b, width)
    ensures a == b
  {
    if width > 0 {
      PadLength(a / 10, width - 1);
      PadLength(b / 10, width - 1);
      var front := Pad(a, width)[..width - 1];
      assert front == Pad(a / 10, width - 1) && Pad(b, width)[..width - 1] == Pad(b / 10, width - 1);
      assert Pad(a, width)[width - 1] == Pad(b, width)[width - 1];
      PadInjective(a / 10, b / 10, width - 1, limit / 10);
    }
  }

  function Power(width: nat): nat {
    if width == 0 then 1 else 10 * Power(width - 1)
  }

  /** Different numbers below a million make different codes. */
  lemma SixDigitsInjective(a: nat, b: nat)
    requires a < CODES && b < CODES && SixDigits(a) == SixDigits(b)
    ensures a == b
  {
    assert Power(6) == CODES by {
      assert Power(1) == 10 && Power(2) == 100 && Power(3) == 1000;
      assert Power(4) == 10_000 && Power(5) == 100_000;
    }
    PadInjective(a, b, 6, CODES);
  }

  // ---------------------------------------------------------------- saving a code

  datatype Input = Input(stayId: string, action: Action, way: Option<Method>, expectedStayRevision: int,
                         expectedSettingsVersion: int, expectedCodeVersion: int)

  /** A confirmation names no way to choose a code; the other actions name one. */
  predicate ActionFits(input: Input) {
    (input.action == Confirm) == input.way.None?
  }

  function SavedCode(w: World, id: string): Option<Code> {
    if id in w.codes then Some(w.codes[id]) else None
  }

  function VersionOf(code: Option<Code>): int {
    if code.Some? then code.value.version else 0
  }

  function SettingsVersion(settings: Option<Settings>): int {
    if settings.Some? then settings.value.version else 0
  }

  predicate VersionsMatch(w: World, stay: Stay, input: Input) {
    && stay.revision == input.expectedStayRevision
    && SettingsVersion(SettingsOf(w, stay)) == input.expectedSettingsVersion
    && VersionOf(SavedCode(w, stay.id)) == input.expectedCodeVersion
  }

  /** The latest revision tells the same guest as the stay. */
  predicate SourceCurrent(w: World, stay: Stay) {
    var source := SourceAt(RevisionsOf(w, stay), stay.revision);
    && source.Some? && PhoneIdentity(source.value.phone) == PhoneIdentity(stay.phone)
    && source.value.guestName == stay.guestName
  }

  /** Why a request is refused, apart from the choice of a code. */
  function Refusal(w: World, input: Input, administrator: Option<string>, n: Neighbors, now: int): Option<AccessError> {
    if !ActionFits(input) then Some(InvalidAction)
    else if administrator.None? then Some(Unauthenticated)
    else if input.stayId !in w.stays then Some(StayNotFound)
    else
      var stay, saved := w.stays[input.stayId], SavedCode(w, input.stayId);
      if !VersionsMatch(w, stay, input) then Some(AccessChanged)
      else if BlockedReason(w, stay, now).Some? then Some(CodeBlocked)
      else if (input.action == Prepare) == saved.Some? then Some(AccessChanged)
      else if VersionOf(saved) >= MAX_VERSION then Some(AccessChanged)
      else if !SourceCurrent(w, stay) then Some(SourceGone)
      else if input.action == Confirm && !CanConfirm(w, stay, saved.value, n, now) then Some(ReplacementRequired)
      else None
  }

  function PreviousCode(saved: Option<Code>): Option<string> {
    if saved.Some? then Some(saved.value.code) else None
  }

  function NextCode(w: World, stay: Stay, saved: Option<Code>, way: Method, code: string, now: int): Code {
    var at := Max(now, if saved.Some? then saved.value.updatedAt + 1 else 1);
    Code(VersionOf(saved) + 1, way, code, stay.revision, SettingsVersion(SettingsOf(w, stay)),
         if saved.Some? then saved.value.preparedAt else at, at)
  }

  function WithCode(w: World, stay: Stay, input: Input, next: Code, actor: string): World {
    w.(codes := w.codes[stay.id := next],
       events := w.events + [CodeEvent(stay.id, next.version, input.action, next.way, actor, next.updatedAt)])
  }

  /** The whole request: the tables it leaves, or its error. */
  function Saved(w: World, input: Input, administrator: Option<string>, n: Neighbors, draws: seq<nat>, now: int)
      : Result<World, AccessError> {
    var refusal := Refusal(w, input, administrator, n, now);
    if refusal.Some? then Err(refusal.value)
    else
      var stay, saved := w.stays[input.stayId], SavedCode(w, input.stayId);
      if input.action == Confirm then
        Ok(WithCode(w, stay, input, NextCode(w, stay, saved, saved.value.way, saved.value.code, now),
                    administrator.value))
      else
        var chosen := Chosen(w, stay, input.way.value, PreviousCode(saved), n, draws);
        if chosen.Err? then Err(chosen.error)
        else Ok(WithCode(w, stay, input, NextCode(w, stay, saved, input.way.value, chosen.value, now),
                         administrator.value))
  }

  class AccessTables {
    var w: World

    /** The neighbours and the random numbers are those of the transaction. */
    method SaveAccessCode(input: Input, administrator: Option<string>, n: Neighbors, draws: seq<nat>, now: int)
      returns (r: Result<(), AccessError>)
      modifies this
      ensures match Saved(old(w), input, administrator, n, draws, now)
              case Ok(next) => r.Ok? && w == next
              case Err(error) => r == Err(error) && w == old(w)
    {
      if (input.action == Confirm) != input.way.None? {
        return Err(InvalidAction);
      }
      if administrator.None? {
        return Err(Unauthenticated);
      }
      if input.stayId !in w.stays {
        return Err(StayNotFound);
      }
      var stay, previous := w.stays[input.stayId], SavedCode(w, input.stayId);
      if !VersionsMatch(w, stay, input) {
        return Err(AccessChanged);
      }
      if BlockedReason(w, stay, now).Some? {
        return Err(CodeBlocked);
      }
      if (input.action == Prepare && previous.Some?) || (input.action != Prepare && previous.None?) {
        return Err(AccessChanged);
      }
      if VersionOf(previous) >= MAX_VERSION {
        return Err(AccessChanged);
      }
      if !SourceCurrent(w, stay) {
        return Err(SourceGone);
      }
      var way, code;
      if input.action == Confirm {
        if !CanConfirm(w, stay, previous.value, n, now) {
          return Err(ReplacementRequired);
        }
        way, code := previous.value.way, previous.value.code;
      } else {
        way := input.way.value;
        var chosen := PrepareCode(stay, way, PreviousCode(previous), n, draws);
        if chosen.Err? {
          return Err(chosen.error);
        }
        code := chosen.value;
      }
      var next := NextCode(w, stay, previous, way, code, now);
      w := w.(codes := w.codes[stay.id := next],
              events := w.events + [CodeEvent(stay.id, next.version, input.action, way, administrator.value,
                                              next.updatedAt)]);
      return Ok(());
    }

    /** Chooses a code; random ones are drawn up to sixty-four times. */
    method PrepareCode(stay: Stay, way: Method, previous: Option<string>, n: Neighbors, draws: seq<nat>)
      returns (r: Result<string, AccessError>)
      requires SettingsOf(w, stay).Some?
      ensures r == Chosen(w, stay, way, previous, n, draws)
    {
      var settings := SettingsOf(w, stay);
      if settings.value.fixed {
        var fixedCode := FixedCode(settings);
        if way != Fixed || fixedCode.None? || fixedCode == Some("") {
          return Err(FixedRequired);
        }
        return Ok(fixedCode.value);
      }
      if way == Fixed {
        return Err(RotatingRequired);
      }
      var excluded := NeighborCodes(w, n) + if previous.Some? then [previous.value] else [];
      if way == PhoneLast6 {
        var digits := PhoneDigits(stay.phone);
        if digits.None? {
          return Err(PhoneInvalid);
        }
        var candidate := LastSix(digits.value);
        if Some(candidate) == previous {
          return Err(CodeUnchanged);
        }
        if candidate in excluded {
          return Err(CodeConflict);
        }
        return Ok(candidate);
      }
      var attempt := 0;
      while attempt < ATTEMPTS && attempt < |draws|
        invariant 0 <= attempt <= ATTEMPTS && attempt <= |draws|
        invariant FirstFree(draws, excluded, ATTEMPTS) == FirstFree(draws[attempt..], excluded, ATTEMPTS - attempt)
      {
        var candidate := SixDigits(draws[attempt]);
        if candidate !in excluded {
          return Ok(candidate);
        }
        assert draws[attempt..][1..] == draws[attempt + 1..];
        attempt := attempt + 1;
      }
      return Err(GenerationFailed);
    }
  }

  // ---------------------------------------------------------------- what a saved code guarantees

  /** No revision of a stay is beyond its current one. */
  predicate RevisionsBounded(w: World, stay: Stay) {
    forall i :: 0 <= i < |RevisionsOf(w, stay)| ==> RevisionsOf(w, stay)[i].version <= stay.revision
  }

  predicate StaysKeyed(w: World) {
    forall id :: id in w.stays ==> w.stays[id].id == id
  }

  /** The neighbours of a stay are other stays. */
  predicate NeighborsApart(n: Neighbors, id: string) {
    n.previous != Some(id) && n.next != Some(id)
  }

  lemma NeighborCodesKept(w: World, next: World, n: Neighbors, id: string)
    requires NeighborsApart(n, id) && forall other :: other != id ==> SavedCode(next, other) == SavedCode(w, other)
    ensures NeighborCodes(next, n) == NeighborCodes(w, n)
  {
    forall other: Option<string> | other != Some(id) ensures CodeOf(next, other) == CodeOf(w, other) {
      if other.Some? {
        assert SavedCode(next, other.value) == SavedCode(w, other.value);
      }
    }
  }

  /** What the choice of a code rules out. */
  lemma ChosenIsSound(w: World, stay: Stay, way: Method, previous: Option<string>, n: Neighbors, draws: seq<nat>)
    requires SettingsOf(w, stay).Some? && Chosen(w, stay, way, previous, n, draws).Ok?
    ensures var code, settings := Chosen(w, stay, way, previous, n, draws).value, SettingsOf(w, stay).value;
            if settings.fixed then way == Fixed && settings.fixedCode == Some(code)
            else way != Fixed && code !in NeighborCodes(w, n) && previous != Some(code) && |code| == 6
  {
    if way == Automatic {
      FirstFreeIsFree(draws, NeighborCodes(w, n) + if previous.Some? then [previous.value] else [], ATTEMPTS);
    }
  }

  /** A code that is sealed under the current revision and settings needs no review
      when it fits them. */
  lemma FittingCodePrepared(w: World, stay: Stay, saved: Code, n: Neighbors)
    requires RevisionsBounded(w, stay) && SourceCurrent(w, stay) && saved.sourceRevision == stay.revision
    requires ModeReasons(SettingsOf(w, stay), saved) == []
    requires NeighborReasons(w, SettingsOf(w, stay), saved, n) == []
    ensures ReviewReasons(w, stay, saved, n) == []
  {
  }

  /** A confirmable code fits the settings and the neighbours already. */
  lemma ConfirmableFits(w: World, stay: Stay, saved: Code, n: Neighbors, now: int)
    requires CanConfirm(w, stay, saved, n, now)
    ensures ModeReasons(SettingsOf(w, stay), saved) == []
    ensures NeighborReasons(w, SettingsOf(w, stay), saved, n) == []
  {
    var all := ReviewReasons(w, stay, saved, n);
    PartOfReview(w, stay, saved, n);
    assert ModeChanged !in all && FixedCodeChanged !in all && NeighborConflict !in all;
  }

  lemma PartOfReview(w: World, stay: Stay, saved: Code, n: Neighbors)
    ensures forall r :: r in ModeReasons(SettingsOf(w, stay), saved) ==> r in ReviewReasons(w, stay, saved, n)
    ensures forall r :: r in NeighborReasons(w, SettingsOf(w, stay), saved, n) ==> r in ReviewReasons(w, stay, saved, n)
  {
  }

  /** The code that a successful request stores. */
  lemma SavedMeans(w: World, input: Input, administrator: Option<string>, n: Neighbors, draws: seq<nat>, now: int)
    requires StaysKeyed(w) && Saved(w, input, administrator, n, draws, now).Ok?
    ensures input.stayId in w.stays && SettingsOf(w, w.stays[input.stayId]).Some? && administrator.Some?
    ensures var next, stay := Saved(w, input, administrator, n, draws, now).value, w.stays[input.stayId];
            var before, code, settings := SavedCode(w, stay.id), SavedCode(next, stay.id), SettingsOf(w, stay).value;
            && code.Some? && next == w.(codes := next.codes, events := next.events)
            && (forall other :: other != stay.id ==> SavedCode(next, other) == SavedCode(w, other))
            && code.value.version == VersionOf(before) + 1 && code.value.sourceRevision == stay.revision
            && code.value.settingsVersion == settings.version
            && (before.Some? ==> before.value.updatedAt < code.value.updatedAt)
            && next.events == w.events + [CodeEvent(stay.id, code.value.version, input.action, code.value.way,
                                                    administrator.value, code.value.updatedAt)]
            && (if input.action == Confirm
                then before.Some? && code.value.code == before.value.code && code.value.way == before.value.way
                else if settings.fixed then code.value.way == Fixed && settings.fixedCode == Some(code.value.code)
                else && code.value.way != Fixed && code.value.code !in NeighborCodes(w, n)
                     && PreviousCode(before) != Some(code.value.code))
  {
    var stay, saved := w.stays[input.stayId], SavedCode(w, input.stayId);
    if input.action != Confirm {
      ChosenIsSound(w, stay, input.way.value, PreviousCode(saved), n, draws);
    }
  }

  /** Every successful prepare, replace or confirm ends prepared, with nothing to
      review; where codes rotate the code differs from both neighbours' codes. */
  lemma SaveEndsPrepared(w: World, input: Input, administrator: Option<string>, n: Neighbors, draws: seq<nat>,
                         now: int)
    requires StaysKeyed(w) && Saved(w, input, administrator, n, draws, now).Ok?
    requires input.stayId in w.stays && RevisionsBounded(w, w.stays[input.stayId])
    requires AreNeighbors(w, w.stays[input.stayId], n)
    ensures var next := Saved(w, input, administrator, n, draws, now).value;
            && AreNeighbors(next, next.stays[input.stayId], n) && IsPrepared(next, input.stayId, n)
            && (IsRotating(SettingsOf(w, w.stays[input.stayId])) ==>
                  next.codes[input.stayId].code !in NeighborCodes(next, n))
  {
    SavedMeans(w, input, administrator, n, draws, now);
    var next, stay := Saved(w, input, administrator, n, draws, now).value, w.stays[input.stayId];
    assert forall id :: Before(next, stay, id) == Before(w, stay, id) && After(next, stay, id) == After(w, stay, id);
    NeighborCodesKept(w, next, n, stay.id);
    if input.action == Confirm {
      ConfirmableFits(w, stay, w.codes[stay.id], n, now);
    }
    FittingCodePrepared(next, stay, next.codes[stay.id], n);
  }

  /** A replacement repeats the code before it exactly where the property has a fixed
      code and that code was already the one before. */
  lemma ReplaceRepeatsIff(w: World, input: Input, administrator: Option<string>, n: Neighbors, draws: seq<nat>,
                          now: int)
    requires StaysKeyed(w) && Saved(w, input, administrator, n, draws, now).Ok? && input.action == Replace
    ensures input.stayId in w.stays && input.stayId in w.codes
    ensures var next, stay := Saved(w, input, administrator, n, draws, now).value, w.stays[input.stayId];
            next.codes[stay.id].code == w.codes[stay.id].code
            <==> FixedCode(SettingsOf(w, stay)) == Some(w.codes[stay.id].code)
  {
    SavedMeans(w, input, administrator, n, draws, now);
  }

  /** Generation fails only when all sixty-four numbers are excluded ones, which are
      three at most. */
  lemma GenerationFailsOnlyOnThree(w: World, stay: Stay, previous: Option<string>, n: Neighbors, draws: seq<nat>)
    requires IsRotating(SettingsOf(w, stay))
    requires Chosen(w, stay, Automatic, previous, n, draws) == Err(GenerationFailed)
    ensures var excluded := NeighborCodes(w, n) + if previous.Some? then [previous.value] else [];
            && |excluded| <= 3
            && forall i :: 0 <= i < |draws| && i < ATTEMPTS ==> SixDigits(draws[i]) in excluded
  {
    FirstFreeIsFree(draws, NeighborCodes(w, n) + if previous.Some? then [previous.value] else [], ATTEMPTS);
  }

  lemma AmongThree(excluded: seq<string>, a: string, b: string, c: string, d: string)
    requires |excluded| <= 3 && a in excluded && b in excluded && c in excluded && d in excluded
    ensures a == b || a == c || a == d || b == c || b == d || c == d
  {
  }

  /** So four different numbers among the sixty-four are enough for a code. */
  lemma FourDrawsSuffice(w: World, stay: Stay, previous: Option<string>, n: Neighbors, draws: seq<nat>,
                         i: nat, j: nat, k: nat, l: nat)
    requires IsRotating(SettingsOf(w, stay))
    requires i < j < k < l < |draws| && l < ATTEMPTS
    requires draws[i] < CODES && draws[j] < CODES && draws[k] < CODES && draws[l] < CODES
    requires draws[i] != draws[j] && draws[i] != draws[k] && draws[i] != draws[l]
    requires draws[j] != draws[k] && draws[j] != draws[l] && draws[k] != draws[l]
    ensures Chosen(w, stay, Automatic, previous, n, draws).Ok?
  {
    if Chosen(w, stay, Automatic, previous, n, draws).Err? {
      GenerationFailsOnlyOnThree(w, stay, previous, n, draws);
      var excluded := NeighborCodes(w, n) + if previous.Some? then [previous.value] else [];
      AmongThree(excluded, SixDigits(draws[i]), SixDigits(draws[j]), SixDigits(draws[k]), SixDigits(draws[l]));
      DifferentCodes(draws[i], draws[j]);
      DifferentCodes(draws[i], draws[k]);
      DifferentCodes(draws[i], draws[l]);
      DifferentCodes(draws[j], draws[k]);
      DifferentCodes(draws[j], draws[l]);
      DifferentCodes(draws[k], draws[l]);
    }
  }

  lemma DifferentCodes(a: nat, b: nat)
    requires a < CODES && b < CODES && a != b
    ensures SixDigits(a) != SixDigits(b)
  {
    if SixDigits(a) == SixDigits(b) {
      SixDigitsInjective(a, b);
    }
  }
}
