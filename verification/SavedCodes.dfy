/** Which room code a request may save, and which it does save, told from the phone number,
    the settings and the codes next door alone. */
module SavedCodes {
  import opened Wrappers
  import opened StayAccess
  import Text

  // ---------------------------------------------------------------- decimal numbers

  function Number(digits: string): int {
    if digits == "" then 0 else 10 * Number(digits[..|digits| - 1]) + (digits[|digits| - 1] as int - '0' as int)
  }

  lemma {:induction false} PadMeans(n: nat, width: nat)
    ensures |Pad(n, width)| == width && AllDigits(Pad(n, width))
    ensures n < Power(width) ==> Number(Pad(n, width)) == n
  {
    if width > 0 {
      PadMeans(n / 10, width - 1);
      assert Pad(n, width)[..width - 1] == Pad(n / 10, width - 1);
    }
  }

  /** A drawn number is written in six decimal digits. */
  lemma SixDigitsMean(n: nat)
    ensures |SixDigits(n)| == 6 && AllDigits(SixDigits(n))
    ensures n < CODES ==> Number(SixDigits(n)) == n
  {
    PadMeans(n, 6);
    assert Power(6) == CODES by {
      assert Power(1) == 10 && Power(2) == 100 && Power(3) == 1000;
      assert Power(4) == 10_000 && Power(5) == 100_000;
    }
  }

  // ---------------------------------------------------------------- phone numbers

  lemma {:induction false} DigitsOfJoined(s: string, t: string)
    ensures DigitsOf(s + t) == DigitsOf(s) + DigitsOf(t)
  {
    if s == "" {
      assert s + t == t;
    } else {
      var first := if Digit(s[0]) then [s[0]] else "";
      assert (s + t)[0] == s[0] && (s + t)[1..] == s[1..] + t;
      assert DigitsOf(s + t) == first + DigitsOf(s[1..] + t);
      DigitsOfJoined(s[1..], t);
    }
  }

  lemma DigitsOfOne(c: char)
    ensures DigitsOf([c]) == if '0' <= c <= '9' then [c] else ""
  {
  }

  /** A digit, a space, a parenthesis or a hyphen. */
  predicate Usual(c: char) {
    '0' <= c <= '9' || c in {' ', '(', ')', '-'}
  }

  /** Digits, spaces, parentheses and hyphens, behind a plus sign if there is one. */
  predicate LooksLikeAPhone(text: string) {
    forall i :: 0 <= i < |text| ==> Usual(text[i]) || (i == 0 && text[i] == '+')
  }

  lemma PlusAllowed(text: string)
    ensures LooksLikeAPhone(text) <==> Dialled(if text != "" && text[0] == '+' then text[1..] else text)
  {
    if text != "" && text[0] == '+' {
      var body := text[1..];
      if LooksLikeAPhone(text) {
        forall i | 0 <= i < |body| ensures Digit(body[i]) || Punctuation(body[i]) {
          assert body[i] == text[i + 1] && Usual(text[i + 1]);
        }
      } else {
        var i :| 0 <= i < |text| && !Usual(text[i]) && !(i == 0 && text[i] == '+');
        assert body[i - 1] == text[i] && !Digit(body[i - 1]) && !Punctuation(body[i - 1]);
      }
    }
  }

  /** A phone number is its digits, seven to fifteen of them, however it is written. */
  lemma PhoneMeans(phone: string)
    ensures PhoneDigits(None) == None
    ensures var text := Text.Trim(phone);
            && (PhoneDigits(Some(phone)).Some? <==> LooksLikeAPhone(text) && 7 <= |DigitsOf(text)| <= 15)
            && (PhoneDigits(Some(phone)).Some? ==> PhoneDigits(Some(phone)).value == DigitsOf(text))
  {
    var text := Text.Trim(phone);
    var body := if text != "" && text[0] == '+' then text[1..] else text;
    assert DigitsOf(text) == DigitsOf(body);
    PlusAllowed(text);
  }

  /** Two numbers are the same phone when they are written alike or have the same digits. */
  lemma SamePhoneIff(a: Option<string>, b: Option<string>)
    ensures PhoneIdentity(a) == PhoneIdentity(b)
            <==> a == b || (PhoneDigits(a).Some? && PhoneDigits(a) == PhoneDigits(b))
  {
    if PhoneDigits(a).Some? {
      IdentityIsSpellingFree(a);
    }
    if PhoneDigits(b).Some? {
      IdentityIsSpellingFree(b);
    }
  }

  // ---------------------------------------------------------------- what stands in the way

  predicate SamePhone(a: Option<string>, b: Option<string>) {
    a == b || (PhoneDigits(a).Some? && PhoneDigits(a) == PhoneDigits(b))
  }

  predicate HasRevision(w: World, id: string, version: int) {
    id in w.revisions && exists i :: 0 <= i < |w.revisions[id]| && w.revisions[id][i].version == version
  }

  predicate DistinctVersions(w: World, id: string) {
    id in w.revisions ==>
      forall i, j :: 0 <= i < j < |w.revisions[id]| ==> w.revisions[id][i].version != w.revisions[id][j].version
  }

  /** The revision of that version can be read, and this is what it says. */
  predicate Told(w: World, id: string, version: int, source: Source) {
    && id in w.revisions
    && exists i :: && 0 <= i < |w.revisions[id]| && w.revisions[id][i].version == version
                   && w.revisions[id][i].source == Some(source)
  }

  lemma {:induction false} SourceAtMeans(revisions: seq<Revision>, version: int)
    requires forall i, j :: 0 <= i < j < |revisions| ==> revisions[i].version != revisions[j].version
    ensures forall source :: SourceAt(revisions, version) == Some(source)
                             <==> exists i :: && 0 <= i < |revisions| && revisions[i].version == version
                                              && revisions[i].source == Some(source)
  {
    if revisions != [] {
      SourceAtMeans(revisions[1..], version);
      forall i | 0 < i < |revisions| ensures revisions[i] == revisions[1..][i - 1] {
      }
    }
  }

  lemma ToldIff(w: World, stay: Stay, version: int, source: Source)
    requires DistinctVersions(w, stay.id)
    ensures SourceAt(RevisionsOf(w, stay), version) == Some(source) <==> Told(w, stay.id, version, source)
  {
    SourceAtMeans(RevisionsOf(w, stay), version);
  }

  /** Why nothing can be saved for a stay now. */
  predicate Stops(w: World, stay: Stay, now: int, why: Blocked) {
    match why
    case StayCancelled => !stay.active
    case Ended => stay.checkOutAt <= now
    case PropertyInactive => stay.propertyId !in w.openProperties
    case Unconfigured => stay.propertyId !in w.settings
    case FixedCodeMissing =>
      && stay.propertyId in w.settings && w.settings[stay.propertyId].fixed
      && w.settings[stay.propertyId].fixedCode in {None, Some("")}
  }

  /** The reason given is the first that holds, and none is given when none holds. */
  lemma BlockedMeans(w: World, stay: Stay, now: int)
    ensures var blocked := BlockedReason(w, stay, now);
            && (blocked == Some(StayCancelled) <==> Stops(w, stay, now, StayCancelled))
            && (blocked == Some(Ended) <==> Stops(w, stay, now, Ended) && !Stops(w, stay, now, StayCancelled))
            && (blocked == Some(PropertyInactive)
                <==> && Stops(w, stay, now, PropertyInactive)
                     && !Stops(w, stay, now, StayCancelled) && !Stops(w, stay, now, Ended))
            && (blocked.None? <==> forall why :: !Stops(w, stay, now, why))
            && (blocked == Some(Unconfigured)
                <==> && Stops(w, stay, now, Unconfigured)
                     && !Stops(w, stay, now, StayCancelled) && !Stops(w, stay, now, Ended)
                     && !Stops(w, stay, now, PropertyInactive))
            && (blocked.Some? ==> Stops(w, stay, now, blocked.value))
  {
    var blocked := BlockedReason(w, stay, now);
    if blocked.None? {
      forall why: Blocked ensures !Stops(w, stay, now, why) {
        match why
        case StayCancelled =>
        case Ended =>
        case PropertyInactive =>
        case Unconfigured =>
        case FixedCodeMissing =>
      }
    } else {
      assert Stops(w, stay, now, blocked.value);
    }
  }

  predicate CodeIs(w: World, id: Option<string>, code: string) {
    id.Some? && id.value in w.codes && w.codes[id.value].code == code
  }

  predicate NextDoor(w: World, n: Neighbors, code: string) {
    CodeIs(w, n.previous, code) || CodeIs(w, n.next, code)
  }

  lemma NextDoorIff(w: World, n: Neighbors, code: string)
    ensures code in NeighborCodes(w, n) <==> NextDoor(w, n, code)
  {
  }

  /** Why a saved code needs a review: what the revision it was saved under tells, if it can
      be read, a cancellation or restoration since then, the settings and the codes next door. */
  ghost predicate Speaks(w: World, stay: Stay, saved: Code, n: Neighbors, why: Reason) {
    match why
    case SourceUnavailable => forall source :: !Told(w, stay.id, saved.sourceRevision, source)
    case PhoneChanged =>
      exists source :: Told(w, stay.id, saved.sourceRevision, source) && !SamePhone(source.phone, stay.phone)
    case GuestChanged =>
      exists source :: Told(w, stay.id, saved.sourceRevision, source) && source.guestName != stay.guestName
    case RestoredSince =>
      && stay.active && stay.id in w.revisions
      && exists r :: && r in w.revisions[stay.id] && saved.sourceRevision < r.version
                     && r.kind in {CancelledKind, RestoredKind}
    case ModeChanged =>
      stay.propertyId !in w.settings || (saved.way == Fixed <==> !w.settings[stay.propertyId].fixed)
    case FixedCodeChanged =>
      && stay.propertyId in w.settings && w.settings[stay.propertyId].fixed && saved.way == Fixed
      && w.settings[stay.propertyId].fixedCode != Some(saved.code)
    case NeighborConflict =>
      stay.propertyId in w.settings && !w.settings[stay.propertyId].fixed && NextDoor(w, n, saved.code)
  }

  lemma SourceReasonsMean(w: World, stay: Stay, saved: Code, n: Neighbors, why: Reason)
    requires DistinctVersions(w, stay.id)
    ensures why in SourceReasons(SourceAt(RevisionsOf(w, stay), saved.sourceRevision), stay)
            <==> why in {SourceUnavailable, PhoneChanged, GuestChanged} && Speaks(w, stay, saved, n, why)
  {
    var source := SourceAt(RevisionsOf(w, stay), saved.sourceRevision);
    forall told ensures Told(w, stay.id, saved.sourceRevision, told) <==> source == Some(told) {
      ToldIff(w, stay, saved.sourceRevision, told);
    }
    if source.Some? {
      SamePhoneIff(source.value.phone, stay.phone);
      assert Told(w, stay.id, saved.sourceRevision, source.value);
    }
  }

  lemma RestoredMeans(revisions: seq<Revision>, version: int)
    ensures RestoredAfter(revisions, version)
            <==> exists r :: r in revisions && version < r.version && r.kind in {CancelledKind, RestoredKind}
  {
  }

  lemma SettingsReasonsMean(w: World, stay: Stay, saved: Code, n: Neighbors, why: Reason)
    ensures why in ModeReasons(SettingsOf(w, stay), saved)
            <==> && why in {ModeChanged, FixedCodeChanged} && Speaks(w, stay, saved, n, why)
                 && (why == FixedCodeChanged ==> !Speaks(w, stay, saved, n, ModeChanged))
    ensures why in NeighborReasons(w, SettingsOf(w, stay), saved, n)
            <==> why == NeighborConflict && Speaks(w, stay, saved, n, why)
  {
    NextDoorIff(w, n, saved.code);
  }

  lemma PartsOfReview(w: World, stay: Stay, saved: Code, n: Neighbors, why: Reason)
    ensures why in ReviewReasons(w, stay, saved, n)
            <==> || why in SourceReasons(SourceAt(RevisionsOf(w, stay), saved.sourceRevision), stay)
                 || (why == RestoredSince && stay.active && RestoredAfter(RevisionsOf(w, stay), saved.sourceRevision))
                 || why in ModeReasons(SettingsOf(w, stay), saved)
                 || why in NeighborReasons(w, SettingsOf(w, stay), saved, n)
  {
  }

  /** The review names exactly the reasons that there are. */
  lemma ReviewMeans(w: World, stay: Stay, saved: Code, n: Neighbors, why: Reason)
    requires DistinctVersions(w, stay.id)
    ensures why in ReviewReasons(w, stay, saved, n)
            <==> && Speaks(w, stay, saved, n, why)
                 && (why == FixedCodeChanged ==> !Speaks(w, stay, saved, n, ModeChanged))
  {
    PartsOfReview(w, stay, saved, n, why);
    SourceReasonsMean(w, stay, saved, n, why);
    SettingsReasonsMean(w, stay, saved, n, why);
    if why == RestoredSince {
      RestoredMeans(RevisionsOf(w, stay), saved.sourceRevision);
    }
  }

  predicate MayStand(why: Reason) {
    why in {PhoneChanged, GuestChanged, RestoredSince}
  }

  lemma ReviewedAllMean(w: World, stay: Stay, saved: Code, n: Neighbors)
    requires DistinctVersions(w, stay.id)
    ensures var all := ReviewReasons(w, stay, saved, n);
            && (all != [] <==> exists why :: Speaks(w, stay, saved, n, why))
            && ((forall why :: why in all ==> MayStand(why))
                <==> forall why :: Speaks(w, stay, saved, n, why) ==> MayStand(why))
  {
    var all := ReviewReasons(w, stay, saved, n);
    forall why ensures why in all ==> Speaks(w, stay, saved, n, why)
               ensures Speaks(w, stay, saved, n, why) ==>
                         why in all || (why == FixedCodeChanged && ModeChanged in all)
    {
      ReviewMeans(w, stay, saved, n, why);
      ReviewMeans(w, stay, saved, n, ModeChanged);
    }
    if all != [] {
      assert all[0] in all;
    }
  }

  /** A code may be confirmed as it is exactly when nothing blocks it, something speaks
      against it, and all that does is a changed guest or phone or a restoration. */
  lemma ConfirmableIff(w: World, stay: Stay, saved: Code, n: Neighbors, now: int)
    requires DistinctVersions(w, stay.id)
    ensures CanConfirm(w, stay, saved, n, now)
            <==> && (forall why :: !Stops(w, stay, now, why))
                 && (exists why :: Speaks(w, stay, saved, n, why))
                 && forall why :: Speaks(w, stay, saved, n, why) ==> MayStand(why)
  {
    BlockedMeans(w, stay, now);
    ReviewedAllMean(w, stay, saved, n);
    assert CanConfirm(w, stay, saved, n, now)
           <==> && BlockedReason(w, stay, now).None? && ReviewReasons(w, stay, saved, n) != []
                && forall why :: why in ReviewReasons(w, stay, saved, n) ==> MayStand(why);
  }

  // ---------------------------------------------------------------- which code is chosen

  predicate Barred(w: World, n: Neighbors, previous: Option<string>, code: string) {
    previous == Some(code) || NextDoor(w, n, code)
  }

  /** The code is the last six digits of the guest's phone. */
  predicate EndsPhone(phone: Option<string>, code: string) {
    var digits := PhoneDigits(phone);
    digits.Some? && |code| == 6 <= |digits.value| && code == digits.value[|digits.value| - 6..]
  }

  lemma BarredIff(w: World, n: Neighbors, previous: Option<string>, code: string)
    ensures code in NeighborCodes(w, n) + (if previous.Some? then [previous.value] else [])
            <==> Barred(w, n, previous, code)
  {
    NextDoorIff(w, n, code);
  }

  lemma {:induction false} FirstFreeMeans(draws: seq<nat>, excluded: seq<string>, attempts: nat)
    ensures var free := FirstFree(draws, excluded, attempts);
            if free.None? then forall i :: 0 <= i < |draws| && i < attempts ==> SixDigits(draws[i]) in excluded
            else exists i :: && 0 <= i < |draws| && i < attempts && free == Some(SixDigits(draws[i]))
                             && SixDigits(draws[i]) !in excluded
                             && forall j :: 0 <= j < i ==> SixDigits(draws[j]) in excluded
  {
    if draws != [] && attempts > 0 && SixDigits(draws[0]) in excluded {
      FirstFreeMeans(draws[1..], excluded, attempts - 1);
      var rest := FirstFree(draws[1..], excluded, attempts - 1);
      forall i | 0 < i < |draws| ensures draws[i] == draws[1..][i - 1] {
      }
      if rest.Some? {
        var i :| && 0 <= i < |draws[1..]| && i < attempts - 1 && rest == Some(SixDigits(draws[1..][i]))
                 && SixDigits(draws[1..][i]) !in excluded
                 && forall j :: 0 <= j < i ==> SixDigits(draws[1..][j]) in excluded;
        assert draws[i + 1] == draws[1..][i];
      }
    }
  }

  /** The first drawn number whose code is not barred. */
  ghost predicate FirstDrawn(w: World, n: Neighbors, previous: Option<string>, draws: seq<nat>, code: string) {
    exists i :: && 0 <= i < |draws| && i < 64 && code == SixDigits(draws[i]) && !Barred(w, n, previous, code)
                && forall j :: 0 <= j < i ==> Barred(w, n, previous, SixDigits(draws[j]))
  }

  ghost predicate AllBarred(w: World, n: Neighbors, previous: Option<string>, draws: seq<nat>) {
    forall i :: 0 <= i < |draws| && i < 64 ==> Barred(w, n, previous, SixDigits(draws[i]))
  }

  lemma DrawnMeans(w: World, n: Neighbors, previous: Option<string>, draws: seq<nat>)
    ensures var excluded := NeighborCodes(w, n) + if previous.Some? then [previous.value] else [];
            var free := FirstFree(draws, excluded, ATTEMPTS);
            if free.None? then AllBarred(w, n, previous, draws) else FirstDrawn(w, n, previous, draws, free.value)
  {
    var excluded := NeighborCodes(w, n) + if previous.Some? then [previous.value] else [];
    FirstFreeMeans(draws, excluded, ATTEMPTS);
    forall code ensures code in excluded <==> Barred(w, n, previous, code) {
      BarredIff(w, n, previous, code);
    }
  }

  /** What the choice of a code answers: the fixed code where there is one, else the end of
      the phone number or the first drawn code, if it is nobody's next door and a new one. */
  ghost predicate Chooses(w: World, stay: Stay, way: Method, previous: Option<string>, n: Neighbors, draws: seq<nat>,
                          r: Result<string, AccessError>)
    requires stay.propertyId in w.settings
  {
    var settings := w.settings[stay.propertyId];
    match r
    case Ok(code) =>
      if settings.fixed then way == Fixed && settings.fixedCode == Some(code) && code != ""
      else
        && !Barred(w, n, previous, code)
        && (way == PhoneLast6 ==> EndsPhone(stay.phone, code))
        && (way == Automatic ==> FirstDrawn(w, n, previous, draws, code)) && way != Fixed
    case Err(FixedRequired) => settings.fixed && (way != Fixed || settings.fixedCode in {None, Some("")})
    case Err(RotatingRequired) => !settings.fixed && way == Fixed
    case Err(PhoneInvalid) => !settings.fixed && way == PhoneLast6 && PhoneDigits(stay.phone).None?
    case Err(CodeUnchanged) =>
      !settings.fixed && way == PhoneLast6 && previous.Some? && EndsPhone(stay.phone, previous.value)
    case Err(CodeConflict) =>
      && !settings.fixed && way == PhoneLast6
      && exists code :: EndsPhone(stay.phone, code) && NextDoor(w, n, code) && previous != Some(code)
    case Err(GenerationFailed) => !settings.fixed && way == Automatic && AllBarred(w, n, previous, draws)
    case Err(_) => false
  }

  lemma ChoiceMeans(w: World, stay: Stay, way: Method, previous: Option<string>, n: Neighbors, draws: seq<nat>)
    requires stay.propertyId in w.settings
    ensures Chooses(w, stay, way, previous, n, draws, Chosen(w, stay, way, previous, n, draws))
  {
    DrawnMeans(w, n, previous, draws);
    if way == PhoneLast6 && PhoneDigits(stay.phone).Some? {
      var digits := PhoneDigits(stay.phone).value;
      PhoneDigitsAreDigits(stay.phone);
      BarredIff(w, n, previous, LastSix(digits));
      assert EndsPhone(stay.phone, LastSix(digits));
    }
  }

  // ---------------------------------------------------------------- the request

  /** The request knows the current versions of its stay, of the settings and of the code. */
  predicate SeesCurrent(w: World, input: Input)
    requires input.stayId in w.stays
  {
    var stay := w.stays[input.stayId];
    && input.expectedStayRevision == stay.revision
    && input.expectedSettingsVersion
       == (if stay.propertyId in w.settings then w.settings[stay.propertyId].version else 0)
    && input.expectedCodeVersion == (if stay.id in w.codes then w.codes[stay.id].version else 0)
  }

  /** The latest revision can be read and tells the guest and the phone of the stay. */
  ghost predicate GuestKnown(w: World, stay: Stay) {
    exists source :: Told(w, stay.id, stay.revision, source) && SamePhone(source.phone, stay.phone)
                     && source.guestName == stay.guestName
  }

  /** Each check of a request, in the order in which they are made. */
  ghost predicate Fails(w: World, input: Input, administrator: Option<string>, n: Neighbors, now: int,
                        why: AccessError) {
    match why
    case InvalidAction => input.action == Confirm <==> input.way.Some?
    case Unauthenticated => administrator.None?
    case StayNotFound => input.stayId !in w.stays
    case AccessChanged =>
      input.stayId in w.stays && (
        || !SeesCurrent(w, input) || (input.action == Prepare <==> input.stayId in w.codes)
        || (input.stayId in w.codes && w.codes[input.stayId].version >= 2147483647))
    case CodeBlocked => input.stayId in w.stays && exists blocked :: Stops(w, w.stays[input.stayId], now, blocked)
    case SourceGone => input.stayId in w.stays && !GuestKnown(w, w.stays[input.stayId])
    case ReplacementRequired =>
      && input.action == Confirm && input.stayId in w.stays && input.stayId in w.codes
      && (var stay, saved := w.stays[input.stayId], w.codes[input.stayId];
          || (forall reason :: !Speaks(w, stay, saved, n, reason))
          || exists reason :: Speaks(w, stay, saved, n, reason) && !MayStand(reason))
    case _ => false
  }

  /** A refusal has its reason, and the checks before it have none; without a refusal, no
      check fails. */
  ghost predicate RefusedFor(w: World, input: Input, administrator: Option<string>, n: Neighbors, now: int,
                             refusal: Option<AccessError>) {
    match refusal
    case None => forall why :: !Fails(w, input, administrator, n, now, why)
    case Some(why) =>
      && Fails(w, input, administrator, n, now, why)
      && (why != InvalidAction ==> !Fails(w, input, administrator, n, now, InvalidAction))
      && (why !in {InvalidAction, Unauthenticated} ==> !Fails(w, input, administrator, n, now, Unauthenticated))
      && (why in {SourceGone, ReplacementRequired} ==>
            && !Fails(w, input, administrator, n, now, AccessChanged)
            && !Fails(w, input, administrator, n, now, CodeBlocked))
      && (why == CodeBlocked ==> SeesCurrent(w, input))
      && (why == ReplacementRequired ==> !Fails(w, input, administrator, n, now, SourceGone))
  }

  lemma GuestKnownIff(w: World, stay: Stay)
    requires DistinctVersions(w, stay.id)
    ensures SourceCurrent(w, stay) <==> GuestKnown(w, stay)
  {
    var source := SourceAt(RevisionsOf(w, stay), stay.revision);
    forall told ensures Told(w, stay.id, stay.revision, told) <==> source == Some(told) {
      ToldIff(w, stay, stay.revision, told);
    }
    if source.Some? {
      SamePhoneIff(source.value.phone, stay.phone);
    }
  }

  lemma StoppedIff(w: World, stay: Stay, now: int)
    ensures BlockedReason(w, stay, now).Some? <==> exists blocked :: Stops(w, stay, now, blocked)
  {
    BlockedMeans(w, stay, now);
  }

  lemma RefusalMeans(w: World, input: Input, administrator: Option<string>, n: Neighbors, now: int)
    requires StaysKeyed(w) && (input.stayId in w.stays ==> DistinctVersions(w, input.stayId))
    ensures RefusedFor(w, input, administrator, n, now, Refusal(w, input, administrator, n, now))
  {
    if input.stayId in w.stays {
      var stay := w.stays[input.stayId];
      StoppedIff(w, stay, now);
      GuestKnownIff(w, stay);
      if input.stayId in w.codes {
        ConfirmableIff(w, stay, w.codes[stay.id], n, now);
      }
    }
  }

  /** What a request does: nothing but a refusal with its reason, or one new version of one
      code with one event of it. */
  ghost predicate Serves(w: World, input: Input, administrator: Option<string>, n: Neighbors, draws: seq<nat>,
                         now: int, r: Result<World, AccessError>) {
    match r
    case Err(why) =>
      || RefusedFor(w, input, administrator, n, now, Some(why))
      || (&& RefusedFor(w, input, administrator, n, now, None) && input.way.Some? && input.stayId in w.stays
          && w.stays[input.stayId].propertyId in w.settings
          && Chooses(w, w.stays[input.stayId], input.way.value, PreviousCode(SavedCode(w, input.stayId)), n, draws,
                     Err(why)))
    case Ok(next) =>
      && RefusedFor(w, input, administrator, n, now, None) && administrator.Some? && input.stayId in w.stays
      && w.stays[input.stayId].propertyId in w.settings && input.stayId in next.codes
      && Stores(w, input, administrator.value, n, draws, now, next, next.codes[input.stayId])
  }

  ghost predicate Stores(w: World, input: Input, actor: string, n: Neighbors, draws: seq<nat>, now: int, next: World,
                         code: Code)
    requires input.stayId in w.stays && w.stays[input.stayId].propertyId in w.settings
  {
    var stay, was := w.stays[input.stayId], SavedCode(w, input.stayId);
    && next.stays == w.stays && next.revisions == w.revisions && next.openProperties == w.openProperties
    && next.settings == w.settings && next.codes == w.codes[stay.id := code]
    && next.events == w.events + [CodeEvent(stay.id, code.version, input.action, code.way, actor, code.updatedAt)]
    && code.sourceRevision == stay.revision && code.settingsVersion == w.settings[stay.propertyId].version
    && (match was
        case None =>
          && input.action == Prepare && code.version == 1 && code.preparedAt == code.updatedAt
          && (code.updatedAt == now || (now < 1 && code.updatedAt == 1))
        case Some(saved) =>
          && input.action != Prepare && code.version == saved.version + 1 && code.preparedAt == saved.preparedAt
          && code.updatedAt >= now && saved.updatedAt < code.updatedAt
          && (code.updatedAt == now || code.updatedAt == saved.updatedAt + 1))
    && (match input.way
        case None => was.Some? && code.code == was.value.code && code.way == was.value.way
        case Some(way) =>
          && code.way == way
          && Chooses(w, stay, way, PreviousCode(was), n, draws, Ok(code.code)))
  }

  lemma SaveMeans(w: World, input: Input, administrator: Option<string>, n: Neighbors, draws: seq<nat>, now: int)
    requires StaysKeyed(w) && (input.stayId in w.stays ==> DistinctVersions(w, input.stayId))
    ensures Serves(w, input, administrator, n, draws, now, Saved(w, input, administrator, n, draws, now))
  {
    RefusalMeans(w, input, administrator, n, now);
    if Refusal(w, input, administrator, n, now).None? {
      var stay := w.stays[input.stayId];
      BlockedMeans(w, stay, now);
      if input.way.Some? {
        ChoiceMeans(w, stay, input.way.value, PreviousCode(SavedCode(w, stay.id)), n, draws);
      }
    }
  }
}
