/** The archive of published checklist versions: the paged inspection of one
    template's chain, and what exactly it accepts. */
module ChecklistArchive {
  import opened Wrappers
  import opened Text
  import opened ChecklistDefinition

  const MAX_VERSION := 2147483647
  const MAX_NAME := 100

  datatype Template = Template(id: string, propertyId: string, kind: string, title: string, version: int,
                               definition: Json, isActive: bool, updatedAt: int)

  datatype Source = Published | Baseline

  datatype Version = Version(version: int, title: string, definition: Json, isActive: bool, source: Source,
                             actorId: Option<string>, actorName: Option<string>, publishedAt: int)

  /** The archived versions of one template, newest first; a version number is
      unique among them. */
  type Archive = seq<Version>

  datatype Code =
    | TemplateChanged | InvalidCurrentTemplate | InvalidDefinition | InvalidArchivedVersion
    | VersionGap | CurrentMismatch

  predicate Descending(rows: Archive) {
    forall i, j :: 0 <= i < j < |rows| ==> rows[j].version < rows[i].version
  }

  predicate ValidText(text: string, maximum: nat) {
    Trim(text) == text && 1 <= |text| <= maximum
  }

  predicate ValidVersion(version: int) {
    1 <= version <= MAX_VERSION
  }

  predicate ValidPublisher(id: Option<string>, name: Option<string>) {
    id.Some? && IsUuidV4(id.value) && name.Some? && ValidText(name.value, MAX_NAME)
  }

  predicate ValidFields(template: Template) {
    IsUuidV4(template.id) && ValidVersion(template.version) && ValidText(template.title, MAX_TITLE)
  }

  function TemplateCode(template: Template): Option<Code> {
    if !ValidFields(template) then Some(InvalidCurrentTemplate)
    else if Parse(template.definition).None? then Some(InvalidDefinition)
    else None
  }

  predicate ValidActor(row: Version) {
    match row.source
    case Baseline => row.actorId.None? && row.actorName.None?
    case Published => ValidPublisher(row.actorId, row.actorName)
  }

  function RowCode(row: Version): Option<Code> {
    if !ValidVersion(row.version) || !ValidText(row.title, MAX_TITLE) || !ValidActor(row)
    then Some(InvalidArchivedVersion)
    else if Parse(row.definition).None? then Some(InvalidDefinition)
    else None
  }

  predicate Matches(row: Version, template: Template) {
    && row.title == template.title && row.isActive == template.isActive
    && row.publishedAt == template.updatedAt && row.definition == template.definition
  }

  // ---------------------------------------------------------------- the inspection without pages

  /** The check of a single row, whatever its neighbours. */
  type Validator = Version -> Option<Code>

  /** Where an inspection stands: the version it expects next, whether it has seen
      a row, and whether the last one was a baseline. */
  datatype Progress = Progress(expected: int, found: bool, baselineSeen: bool)

  function Check(row: Version, template: Template, validate: Validator, p: Progress): Result<Progress, Code> {
    var code := validate(row);
    if code.Some? then Err(code.value)
    else if row.version != p.expected || p.baselineSeen then Err(VersionGap)
    else if !p.found && !Matches(row, template) then Err(CurrentMismatch)
    else Ok(Progress(p.expected - 1, true, row.source == Baseline))
  }

  function Scan(rows: Archive, template: Template, validate: Validator, p: Progress): Result<Progress, Code>
    decreases |rows|
  {
    if rows == [] then Ok(p)
    else
      var next := Check(rows[0], template, validate, p);
      if next.Err? then next else Scan(rows[1..], template, validate, next.value)
  }

  function Verdict(p: Progress): Result<bool, Code> {
    if p.found && !p.baselineSeen && p.expected != 0 then Err(VersionGap) else Ok(!p.found)
  }

  function Start(template: Template): Progress {
    Progress(template.version, false, false)
  }

  /** The whole archive in one look: whether a baseline is needed, or what is wrong. */
  function Inspected(template: Option<Template>, rows: Archive): Result<bool, Code> {
    if template.None? then Err(TemplateChanged)
    else
      var code := TemplateCode(template.value);
      if code.Some? then Err(code.value)
      else
        var end := Scan(rows, template.value, RowCode, Start(template.value));
        if end.Err? then Err(end.error) else Verdict(end.value)
  }

  // ---------------------------------------------------------------- the inspection in pages

  /** The rows below a version; a bound of zero is no bound. */
  function Below(rows: Archive, before: Option<int>): Archive {
    if before.None? || before.value == 0 || rows == [] || rows[0].version < before.value then rows
    else Below(rows[1..], before)
  }

  function Query(rows: Archive, before: Option<int>, take: nat): Archive {
    var below := Below(rows, before);
    if |below| <= take then below else below[..take]
  }

  /** A check that refuses version zero, as the bound of a page needs. */
  ghost predicate RefusesZero(validate: Validator) {
    forall row: Version :: row.version == 0 ==> validate(row).Some?
  }

  /** Below its last row, a page leaves exactly what comes after it. */
  lemma {:induction false} BelowSkips(rows: Archive, n: nat)
    requires Descending(rows) && 0 < n <= |rows| && rows[n - 1].version != 0
    ensures Below(rows, Some(rows[n - 1].version)) == rows[n..]
  {
    if n > 1 {
      assert rows[1..][n - 2] == rows[n - 1];
      BelowSkips(rows[1..], n - 1);
      assert rows[1..][n - 1..] == rows[n..];
    } else if |rows| > 1 {
      assert rows[1..] == rows[n..];
      assert rows[1].version < rows[0].version;
    }
  }

  lemma {:induction false} ScanAppend(first: Archive, second: Archive, template: Template, validate: Validator,
                                      p: Progress)
    ensures Scan(first + second, template, validate, p)
            == var half := Scan(first, template, validate, p);
               if half.Err? then half else Scan(second, template, validate, half.value)
    decreases |first|
  {
    if first == [] {
      assert first + second == second;
    } else {
      assert (first + second)[1..] == first[1..] + second;
      var next := Check(first[0], template, validate, p);
      if next.Ok? {
        ScanAppend(first[1..], second, template, validate, next.value);
      }
    }
  }

  lemma {:induction false} ScannedNotZero(rows: Archive, template: Template, validate: Validator, p: Progress)
    requires RefusesZero(validate) && Scan(rows, template, validate, p).Ok?
    ensures forall k :: 0 <= k < |rows| ==> rows[k].version != 0
    decreases |rows|
  {
    if rows != [] {
      ScannedNotZero(rows[1..], template, validate, Check(rows[0], template, validate, p).value);
    }
  }

  lemma ScanStep(rows: Archive, template: Template, validate: Validator, p: Progress, k: nat)
    requires k < |rows| && Scan(rows[..k], template, validate, p).Ok?
    ensures Scan(rows[..k + 1], template, validate, p)
            == Check(rows[k], template, validate, Scan(rows[..k], template, validate, p).value)
  {
    assert rows[..k + 1] == rows[..k] + [rows[k]];
    ScanAppend(rows[..k], [rows[k]], template, validate, p);
    var half := Scan(rows[..k], template, validate, p).value;
    assert [rows[k]][1..] == [];
    assert Scan([rows[k]], template, validate, half) == Check(rows[k], template, validate, half);
  }

  /** One page, row by row. */
  method ScanPage(page: Archive, template: Template, validate: Validator, start: Progress)
    returns (r: Result<Progress, Code>)
    ensures r == Scan(page, template, validate, start)
  {
    var p, k := start, 0;
    while k < |page|
      invariant 0 <= k <= |page| && Scan(page[..k], template, validate, start) == Ok(p)
    {
      ScanStep(page, template, validate, start, k);
      var next := Check(page[k], template, validate, p);
      if next.Err? {
        ScanAppend(page[..k + 1], page[k + 1..], template, validate, start);
        assert page == page[..k + 1] + page[k + 1..];
        return next;
      }
      p := next.value;
      k := k + 1;
    }
    assert page[..k] == page;
    return Ok(p);
  }

  /** The first rows were scanned, and the rest is what lies below the bound. */
  predicate Reading(rows: Archive, seen: Archive, rest: Archive, before: Option<int>, template: Template,
                    validate: Validator, start: Progress, p: Progress) {
    rows == seen + rest && Below(rows, before) == rest && Scan(seen, template, validate, start) == Ok(p)
  }

  lemma PageRead(rows: Archive, seen: Archive, page: Archive, after: Archive, before: Option<int>,
                 template: Template, validate: Validator, start: Progress, p: Progress)
    requires Descending(rows) && RefusesZero(validate) && page != []
    requires Reading(rows, seen, page + after, before, template, validate, start, p)
    ensures var next := Scan(page, template, validate, p);
            if next.Err? then Scan(rows, template, validate, start) == next
            else Reading(rows, seen + page, after, Some(page[|page| - 1].version), template, validate, start,
                         next.value)
  {
    assert rows == (seen + page) + after;
    ScanAppend(seen, page, template, validate, start);
    ScanAppend(seen + page, after, template, validate, start);
    if Scan(page, template, validate, p).Ok? {
      ScannedNotZero(page, template, validate, p);
      PageEnd(rows, seen, page, after);
    }
  }

  lemma PageEnd(rows: Archive, seen: Archive, page: Archive, rest: Archive)
    requires Descending(rows) && rows == seen + page + rest && page != [] && page[|page| - 1].version != 0
    ensures Below(rows, Some(page[|page| - 1].version)) == rest
  {
    var end := |seen| + |page|;
    assert rows[end - 1] == page[|page| - 1] && rows[end..] == rest;
    BelowSkips(rows, end);
  }

  /** Reads the next page. */
  method NextPage(rows: Archive, before: Option<int>, pageSize: nat, ghost rest: Archive)
    returns (page: Archive, ghost after: Archive)
    requires Below(rows, before) == rest
    ensures rest == page + after && |page| <= pageSize && (|page| < pageSize ==> after == [])
  {
    page := Query(rows, before, pageSize);
    after := rest[|page|..];
  }

  /** The archive is read page by page, each page below the last row of the one
      before. */
  method ScanPages(template: Template, rows: Archive, validate: Validator, start: Progress, pageSize: nat)
    returns (r: Result<Progress, Code>)
    requires Descending(rows) && RefusesZero(validate) && 1 <= pageSize
    ensures r == Scan(rows, template, validate, start)
  {
    var before: Option<int>, p := None, start;
    ghost var seen: Archive, rest := [], rows;
    while true
      invariant Reading(rows, seen, rest, before, template, validate, start, p)
      decreases |rest|
    {
      var page;
      ghost var after;
      page, after := NextPage(rows, before, pageSize, rest);
      if page == [] {
        break;
      }
      var next := ScanPage(page, template, validate, p);
      PageRead(rows, seen, page, after, before, template, validate, start, p);
      if next.Err? {
        return next;
      }
      p, seen, rest, before := next.value, seen + page, after, Some(page[|page| - 1].version);
      if |page| < pageSize {
        break;
      }
    }
    assert rows == seen;
    return Ok(p);
  }

  /** Inspects the chain of one template. The answer does not depend on the size
      of a page. */
  method Inspect(template: Option<Template>, rows: Archive, pageSize: nat) returns (r: Result<bool, Code>)
    requires Descending(rows) && 1 <= pageSize
    ensures r == Inspected(template, rows)
  {
    if template.None? {
      return Err(TemplateChanged);
    }
    var code := TemplateCode(template.value);
    if code.Some? {
      return Err(code.value);
    }
    var end := ScanPages(template.value, rows, RowCode, Start(template.value), pageSize);
    if end.Err? {
      return Err(end.error);
    }
    return Verdict(end.value);
  }

  // ---------------------------------------------------------------- what is accepted

  /** Versions without a gap down from the newest, each sound by itself, and a
      baseline only at the end. */
  predicate Unbroken(rows: Archive, newest: int, validate: Validator) {
    && (forall k :: 0 <= k < |rows| ==> validate(rows[k]).None? && rows[k].version == newest - k)
    && (forall k :: 0 <= k < |rows| - 1 ==> rows[k].source == Published)
  }

  /** The chain of a template: no archive at all, or unbroken from the current
      version, the newest row being the current template, and reaching the first
      version unless it ends in a baseline. */
  predicate Chain(template: Template, rows: Archive, validate: Validator) {
    && Unbroken(rows, template.version, validate)
    && (rows != [] ==>
          && Matches(rows[0], template)
          && (rows[|rows| - 1].source == Baseline || rows[|rows| - 1].version == 1))
  }

  predicate Acceptable(template: Template, rows: Archive) {
    TemplateCode(template).None? && Chain(template, rows, RowCode)
  }

  /** A stretch of the chain that an inspection may go on with. */
  predicate Continues(rows: Archive, template: Template, validate: Validator, p: Progress) {
    && Unbroken(rows, p.expected, validate)
    && (rows != [] ==> !p.baselineSeen && (p.found || Matches(rows[0], template)))
  }

  lemma ContinuesStep(rows: Archive, template: Template, validate: Validator, p: Progress)
    requires rows != []
    ensures var next := Check(rows[0], template, validate, p);
            Continues(rows, template, validate, p)
            <==> next.Ok? && Continues(rows[1..], template, validate, next.value)
  {
    var next, rest := Check(rows[0], template, validate, p), rows[1..];
    if Continues(rows, template, validate, p) {
      forall k | 0 <= k < |rest| ensures validate(rest[k]).None? && rest[k].version == p.expected - 1 - k {
        assert rest[k] == rows[k + 1];
      }
    }
    if next.Ok? && Continues(rest, template, validate, next.value) {
      forall k | 0 <= k < |rows| ensures validate(rows[k]).None? && rows[k].version == p.expected - k {
        if k > 0 {
          assert rows[k] == rest[k - 1];
        }
      }
    }
  }

  /** The scan succeeds exactly on such a stretch. */
  lemma {:induction false} ScanAccepts(rows: Archive, template: Template, validate: Validator, p: Progress)
    ensures Scan(rows, template, validate, p).Ok? <==> Continues(rows, template, validate, p)
    ensures Scan(rows, template, validate, p).Ok? ==>
              Scan(rows, template, validate, p).value
              == if rows == [] then p
                 else Progress(p.expected - |rows|, true, rows[|rows| - 1].source == Baseline)
    decreases |rows|
  {
    if rows != [] {
      ContinuesStep(rows, template, validate, p);
      var next := Check(rows[0], template, validate, p);
      if next.Ok? {
        ScanAccepts(rows[1..], template, validate, next.value);
      }
    }
  }

  /** The scan and the verdict together accept exactly the chains. */
  lemma ChainAccepted(template: Template, rows: Archive, validate: Validator)
    ensures var end := Scan(rows, template, validate, Start(template));
            && (end.Ok? && Verdict(end.value).Ok? <==> Chain(template, rows, validate))
            && (Chain(template, rows, validate) ==> Verdict(end.value) == Ok(rows == []))
  {
    ScanAccepts(rows, template, validate, Start(template));
  }

  /** The inspection accepts exactly the acceptable chains, and asks for a baseline
      exactly when there is no archive. */
  lemma InspectionAccepts(template: Template, rows: Archive)
    ensures Inspected(Some(template), rows).Ok? <==> Acceptable(template, rows)
    ensures Acceptable(template, rows) ==> Inspected(Some(template), rows) == Ok(rows == [])
  {
    ChainAccepted(template, rows, RowCode);
  }
}
