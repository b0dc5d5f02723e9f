/** The writers of the checklist archive: publishing a template, publishing a new
    version of it, and giving a template from before the archive its baseline. */
module ChecklistPublishing {
  import opened Wrappers
  import opened Text
  import opened ChecklistDefinition
  import opened ChecklistArchive
  import Accounts = AdminAccounts
  import Build = ChecklistBuild

  datatype Publisher = Publisher(id: string, name: string)

  /** Whoever sent the request publishes if they are an active administrator. */
  function FindPublisher(users: Accounts.Users, actor: string): Option<Publisher> {
    if Accounts.MayPublish(users, actor) then Some(Publisher(actor, users[actor].name)) else None
  }

  datatype Store = Store(templates: map<string, Template>, archives: map<string, Archive>)

  datatype PublishError =
    | NotBuilt(error: Build.BuildError) | Unauthorized | PropertyUnavailable | TemplateExists | TemplateNotFound
    | InvalidStored | VersionConflict | HistoryUnavailable | ArchiveConflict | EmptyUpdate

  function ArchiveOf(store: Store, id: string): Archive {
    if id in store.archives then store.archives[id] else []
  }

  predicate HasVersion(rows: Archive, version: int) {
    exists k :: 0 <= k < |rows| && rows[k].version == version
  }

  /** A new row at its place; a version number is archived once. */
  function Insert(rows: Archive, row: Version): Archive {
    if rows == [] || rows[0].version < row.version then [row] + rows
    else [rows[0]] + Insert(rows[1..], row)
  }

  function Inserted(rows: Archive, row: Version): Option<Archive> {
    if HasVersion(rows, row.version) then None else Some(Insert(rows, row))
  }

  lemma {:induction false} InsertKeepsOrder(rows: Archive, row: Version)
    requires Descending(rows) && !HasVersion(rows, row.version)
    ensures Descending(Insert(rows, row))
    ensures forall r :: r in Insert(rows, row) <==> r in rows || r == row
  {
    if rows != [] {
      assert rows == [rows[0]] + rows[1..];
      if row.version < rows[0].version {
        forall k | 0 <= k < |rows[1..]| ensures rows[1..][k].version != row.version {
          assert rows[k + 1].version != row.version;
        }
        InsertKeepsOrder(rows[1..], row);
        var rest := Insert(rows[1..], row);
        forall k | 0 <= k < |rest| ensures rest[k].version < rows[0].version {
          assert rest[k] in rest;
        }
      } else {
        assert rows[0].version != row.version;
      }
    }
  }

  /** The row that publishing a template archives. */
  function PublishedRow(template: Template, definition: Definition, publisher: Publisher): Version {
    Version(template.version, template.title, ToJson(definition), template.isActive, Published,
            Some(publisher.id), Some(publisher.name), template.updatedAt)
  }

  function BaselineRow(template: Template): Version {
    Version(template.version, template.title, template.definition, template.isActive, Baseline, None, None,
            template.updatedAt)
  }

  // ---------------------------------------------------------------- the steps on values

  /** Saves a template and archives it as it reads back. */
  function Publish(store: Store, template: Template, publisher: Publisher): Result<Store, PublishError> {
    var saved := Parse(template.definition);
    if saved.None? then Err(InvalidStored)
    else
      var rows := Inserted(ArchiveOf(store, template.id), PublishedRow(template, saved.value, publisher));
      if rows.None? then Err(ArchiveConflict)
      else Ok(Store(store.templates[template.id := template], store.archives[template.id := rows.value]))
  }

  predicate Exists(store: Store, propertyId: string, kind: string) {
    exists id :: id in store.templates && store.templates[id].propertyId == propertyId
                 && store.templates[id].kind == kind
  }

  function Created(store: Store, id: string, propertyId: string, kind: string, title: string,
                   definition: Definition, now: int, publisher: Publisher): Result<Store, PublishError> {
    if Exists(store, propertyId, kind) then Err(TemplateExists)
    else Publish(store, Template(id, propertyId, kind, title, 1, ToJson(definition), true, now), publisher)
  }

  /** The current template with the changes of an update. */
  function NextTemplate(current: Template, title: string, definition: Definition, isActive: bool, now: int): Template {
    current.(title := title, definition := ToJson(definition), isActive := isActive, version := current.version + 1,
             updatedAt := Max(now, current.updatedAt + 1))
  }

  function Value<T>(given: Option<T>, otherwise: T): T {
    if given.Some? then given.value else otherwise
  }

  function Updated(store: Store, id: string, expectedVersion: int, title: Option<string>,
                   rebuilt: Option<Definition>, isActive: Option<bool>, now: int, publisher: Publisher)
      : Result<Store, PublishError> {
    if id !in store.templates then Err(TemplateNotFound)
    else
      var current := store.templates[id];
      var read := Parse(current.definition);
      if read.None? then Err(InvalidStored)
      else if current.version != expectedVersion then Err(VersionConflict)
      else
        var title', definition, active := Value(title, current.title), Value(rebuilt, read.value),
                                          Value(isActive, current.isActive);
        if title' == current.title && active == current.isActive && definition == read.value then Ok(store)
        else if !HasVersion(ArchiveOf(store, id), current.version) then Err(HistoryUnavailable)
        else Publish(store, NextTemplate(current, title', definition, active, now), publisher)
  }

  function Find(store: Store, id: string): Option<Template> {
    if id in store.templates then Some(store.templates[id]) else None
  }

  /** One template of an applied backfill: its chain is inspected again, and a
      template without an archive gets a baseline. */
  function Backfilled(store: Store, id: string): Result<(Store, bool), Code> {
    var verdict := Inspected(Find(store, id), ArchiveOf(store, id));
    if verdict.Err? then Err(verdict.error)
    else if !verdict.value then Ok((store, false))
    else
      Ok((store.(archives := store.archives[id := Insert(ArchiveOf(store, id), BaselineRow(store.templates[id]))]),
          true))
  }

  // ---------------------------------------------------------------- what each step keeps

  predicate ChainSound(store: Store, id: string)
    requires id in store.templates
  {
    store.templates[id].id == id && Acceptable(store.templates[id], ArchiveOf(store, id))
  }

  /** Every template's chain is one the inspection accepts, and there is no
      archive without a template. */
  ghost predicate Sound(store: Store) {
    && (forall id {:trigger ChainSound(store, id)} :: id in store.templates ==> ChainSound(store, id))
    && (forall id :: id in store.archives ==> id in store.templates)
  }

  predicate Archived(store: Store, id: string) {
    ArchiveOf(store, id) != []
  }

  lemma CanonicalText(text: string, maximum: nat)
    ensures TextCanonical(text, maximum) <==> ValidText(text, maximum)
  {
    TrimIsIdempotent(text);
  }

  lemma ChainVersions(template: Template, rows: Archive, validate: Validator)
    requires Chain(template, rows, validate)
    ensures Descending(rows) && !HasVersion(rows, template.version + 1)
    ensures rows != [] <==> HasVersion(rows, template.version)
  {
    if rows != [] {
      assert rows[0].version == template.version;
    }
  }

  /** A new head on a chain makes a chain exactly when the head is sound. */
  lemma ChainOnTop(current: Template, rows: Archive, next: Template, row: Version, validate: Validator)
    requires Chain(current, rows, validate) && rows != []
    requires next.version == current.version + 1 == row.version && row.source == Published && Matches(row, next)
    ensures Insert(rows, row) == [row] + rows
    ensures Chain(next, [row] + rows, validate) <==> validate(row).None?
  {
    var all := [row] + rows;
    forall k | 0 <= k < |rows|
      ensures all[k + 1] == rows[k] && validate(rows[k]).None? && rows[k].version == current.version - k
    {
    }
    assert Chain(next, all, validate) ==> validate(all[0]).None?;
  }

  lemma ChainStart(template: Template, row: Version, validate: Validator)
    requires row.version == template.version && Matches(row, template) && (row.source == Baseline || row.version == 1)
    ensures Insert([], row) == [row]
    ensures Chain(template, [row], validate) <==> validate(row).None?
  {
    assert Chain(template, [row], validate) ==> validate([row][0]).None?;
  }

  /** What is published is sound exactly when its publisher is valid. */
  lemma PublishedRowSound(template: Template, definition: Definition, publisher: Publisher)
    requires ValidFields(template) && Canonical(definition)
    ensures RowCode(PublishedRow(template, definition, publisher)).None?
            <==> ValidPublisher(Some(publisher.id), Some(publisher.name))
  {
    RoundTrip(definition);
  }

  lemma BaselineRowSound(template: Template)
    requires TemplateCode(template).None?
    ensures RowCode(BaselineRow(template)).None?
  {
  }

  predicate TitleRequest(title: string) {
    TextCanonical(title, MAX_TITLE)
  }

  lemma PublishResult(store: Store, template: Template, definition: Definition, publisher: Publisher)
    requires Canonical(definition) && template.definition == ToJson(definition)
    ensures var row := PublishedRow(template, definition, publisher);
            Publish(store, template, publisher)
            == if HasVersion(ArchiveOf(store, template.id), row.version) then Err(ArchiveConflict)
               else Ok(Store(store.templates[template.id := template],
                             store.archives[template.id := Insert(ArchiveOf(store, template.id), row)]))
  {
    RoundTrip(definition);
  }

  /** What publishing a template for the first time does to its chain. */
  lemma CreateKeeps(store: Store, id: string, propertyId: string, kind: string, title: string,
                    definition: Definition, now: int, publisher: Publisher)
    requires id !in store.templates && id !in store.archives && IsUuidV4(id)
    requires TitleRequest(title) && Canonical(definition)
    ensures var r := Created(store, id, propertyId, kind, title, definition, now, publisher);
            && (r.Err? <==> Exists(store, propertyId, kind))
            && (r.Ok? ==>
                  && id in r.value.templates && Archived(r.value, id)
                  && (ChainSound(r.value, id) <==> ValidPublisher(Some(publisher.id), Some(publisher.name))))
  {
    var template := Template(id, propertyId, kind, title, 1, ToJson(definition), true, now);
    CanonicalText(title, MAX_TITLE);
    RoundTrip(definition);
    PublishResult(store, template, definition, publisher);
    PublishedRowSound(template, definition, publisher);
    ChainStart(template, PublishedRow(template, definition, publisher), RowCode);
  }

  lemma NextTemplateSound(current: Template, title: Option<string>, definition: Definition, isActive: bool, now: int)
    requires TemplateCode(current).None? && current.version < MAX_VERSION && Canonical(definition)
    requires title.Some? ==> TitleRequest(title.value)
    ensures var next := NextTemplate(current, Value(title, current.title), definition, isActive, now);
            ValidFields(next) && TemplateCode(next).None?
  {
    RoundTrip(definition);
    if title.Some? {
      CanonicalText(title.value, MAX_TITLE);
    }
  }

  /** What publishing a further version does to the chain: only an archived current
      version is extended, and the new chain is acceptable exactly when the one
      who published it is a valid publisher. */
  lemma UpdateKeeps(store: Store, id: string, expectedVersion: int, title: Option<string>,
                    rebuilt: Option<Definition>, isActive: Option<bool>, now: int, publisher: Publisher)
    requires id in store.templates && ChainSound(store, id) && expectedVersion < MAX_VERSION
    requires (title.Some? ==> TitleRequest(title.value)) && (rebuilt.Some? ==> Canonical(rebuilt.value))
    ensures var r := Updated(store, id, expectedVersion, title, rebuilt, isActive, now, publisher);
            r.Ok? && r.value != store ==>
              && Archived(store, id) && Archived(r.value, id) && id in r.value.templates
              && r.value.templates[id].version == store.templates[id].version + 1
              && store.templates[id].updatedAt < r.value.templates[id].updatedAt
              && |ArchiveOf(r.value, id)| == |ArchiveOf(store, id)| + 1
              && ArchiveOf(r.value, id)[1..] == ArchiveOf(store, id)
              && (ChainSound(r.value, id) <==> ValidPublisher(Some(publisher.id), Some(publisher.name)))
  {
    var r := Updated(store, id, expectedVersion, title, rebuilt, isActive, now, publisher);
    if r.Ok? && r.value != store {
      var current, rows := store.templates[id], ArchiveOf(store, id);
      var read := Parse(current.definition).value;
      var definition := Value(rebuilt, read);
      var next := NextTemplate(current, Value(title, current.title), definition, Value(isActive, current.isActive),
                               now);
      ParseYieldsCanonical(read);
      NextTemplateSound(current, title, definition, Value(isActive, current.isActive), now);
      PublishResult(store, next, definition, publisher);
      PublishedRowSound(next, definition, publisher);
      ChainVersions(current, rows, RowCode);
      ChainOnTop(current, rows, next, PublishedRow(next, definition, publisher), RowCode);
    }
  }

  /** A backfill gives the template a baseline exactly when it has no archive, and
      leaves it archived and acceptable. */
  lemma BackfillKeeps(store: Store, id: string)
    requires id in store.templates && ChainSound(store, id)
    ensures var r := Backfilled(store, id);
            && r.Ok? && r.value.1 == !Archived(store, id)
            && (Archived(store, id) ==> r.value.0 == store)
            && r.value.0.templates == store.templates && Archived(r.value.0, id) && ChainSound(r.value.0, id)
            && r.value.0.archives.Keys <= store.archives.Keys + {id}
            && (forall other :: other != id ==> ArchiveOf(r.value.0, other) == ArchiveOf(store, other))
  {
    var template := store.templates[id];
    InspectionAccepts(template, ArchiveOf(store, id));
    BaselineRowSound(template);
    ChainStart(template, BaselineRow(template), RowCode);
  }

  // ---------------------------------------------------------------- what a step leaves alone

  /** Everything but one template and its archive is as before. */
  ghost predicate OnlyTouches(store: Store, next: Store, id: string) {
    && id in next.templates
    && (forall other :: other != id ==> Find(next, other) == Find(store, other))
    && (forall other :: other != id ==> ArchiveOf(next, other) == ArchiveOf(store, other))
    && next.archives.Keys <= store.archives.Keys + {id}
  }

  lemma PublishTouches(store: Store, template: Template, publisher: Publisher)
    ensures var r := Publish(store, template, publisher); r.Ok? ==> OnlyTouches(store, r.value, template.id)
  {
  }

  lemma Untouched(store: Store, next: Store, id: string, other: string)
    requires OnlyTouches(store, next, id) && other != id
    ensures other in next.templates <==> other in store.templates
    ensures Archived(next, other) == Archived(store, other)
    ensures other in store.templates ==> ChainSound(next, other) == ChainSound(store, other)
  {
    assert Find(next, other) == Find(store, other) && ArchiveOf(next, other) == ArchiveOf(store, other);
  }

  lemma TouchedSound(store: Store, next: Store, id: string)
    requires Sound(store) && OnlyTouches(store, next, id) && ChainSound(next, id)
    ensures Sound(next)
  {
    forall other | other in next.templates ensures ChainSound(next, other) {
      if other != id {
        Untouched(store, next, id, other);
        assert ChainSound(store, other);
      }
    }
    forall other | other in next.archives ensures other in next.templates {
      if other != id {
        Untouched(store, next, id, other);
      }
    }
  }

  /** What was archived stays so, and what is new is archived. */
  ghost predicate KeepsArchived(store: Store, next: Store) {
    && (forall id :: id in store.templates && Archived(store, id) ==> id in next.templates && Archived(next, id))
    && (forall id :: id in next.templates && id !in store.templates ==> Archived(next, id))
    && store.templates.Keys <= next.templates.Keys
  }

  lemma TouchedKeepsArchived(store: Store, next: Store, id: string)
    requires OnlyTouches(store, next, id) && Archived(next, id)
    ensures KeepsArchived(store, next)
  {
    forall other | other != id
      ensures other in next.templates <==> other in store.templates
      ensures Archived(next, other) == Archived(store, other)
    {
      Untouched(store, next, id, other);
    }
  }

  // ---------------------------------------------------------------- what a publication leaves

  /** The archived row says what the template says, and who published it. */
  predicate ArchivedAs(row: Version, t: Template, publisher: Publisher) {
    && row.version == t.version && row.title == t.title && row.isActive == t.isActive && row.publishedAt == t.updatedAt
    && row.source == Published && row.actorId == Some(publisher.id) && row.actorName == Some(publisher.name)
    && Parse(t.definition).Some? && Parse(row.definition) == Parse(t.definition)
  }

  ghost predicate GainsRow(rows: Archive, after: Archive, t: Template, publisher: Publisher) {
    exists row :: ArchivedAs(row, t, publisher) && forall r :: r in after <==> r in rows || r == row
  }

  /** The template now says this, and one more row of its archive does; no other template
      and no other archive changed. */
  ghost predicate Publishes(was: Store, now: Store, id: string, publisher: Publisher) {
    && id in now.templates && now.templates[id].id == id
    && GainsRow(ArchiveOf(was, id), ArchiveOf(now, id), now.templates[id], publisher)
    && (forall other :: other != id ==> Find(now, other) == Find(was, other))
    && (forall other :: other != id ==> ArchiveOf(now, other) == ArchiveOf(was, other))
  }

  /** The stored form is that of the definition, and reads back as it. */
  predicate Stores(t: Template, definition: Definition) {
    t.definition == ToJson(definition) && (Canonical(definition) ==> Parse(t.definition) == Some(definition))
  }

  /** Something that an update asks for is not so yet. */
  predicate AsksForChange(t: Template, title: Option<string>, rebuilt: Option<Definition>, isActive: Option<bool>) {
    || (title.Some? && title.value != t.title) || (isActive.Some? && isActive.value != t.isActive)
    || (rebuilt.Some? && rebuilt != Parse(t.definition))
  }

  /** The template has what was asked for, and what was not asked for as before. */
  predicate Takes(t: Template, was: Template, title: Option<string>, rebuilt: Option<Definition>,
                  isActive: Option<bool>, now: int)
    requires Parse(was.definition).Some?
  {
    && t.id == was.id && t.propertyId == was.propertyId && t.kind == was.kind && t.version == was.version + 1
    && (if title.Some? then t.title == title.value else t.title == was.title)
    && (if isActive.Some? then t.isActive == isActive.value else t.isActive == was.isActive)
    && Stores(t, if rebuilt.Some? then rebuilt.value else Parse(was.definition).value)
    && was.updatedAt < t.updatedAt && now <= t.updatedAt && (t.updatedAt == now || t.updatedAt == was.updatedAt + 1)
  }

  ghost predicate UpdateEffect(was: Store, now: Store, id: string, title: Option<string>,
                               rebuilt: Option<Definition>, isActive: Option<bool>, at: int, publisher: Publisher)
  {
    && id in was.templates && Parse(was.templates[id].definition).Some?
    && if !AsksForChange(was.templates[id], title, rebuilt, isActive) then now == was
       else Publishes(was, now, id, publisher)
            && Takes(now.templates[id], was.templates[id], title, rebuilt, isActive, at)
  }

  ghost predicate CreateEffect(was: Store, now: Store, id: string, propertyId: string, kind: string, title: string,
                               definition: Definition, at: int, publisher: Publisher)
  {
    && Publishes(was, now, id, publisher)
    && (var t := now.templates[id];
        && t.propertyId == propertyId && t.kind == kind && t.title == title && t.version == 1 && t.isActive
        && t.updatedAt == at && Stores(t, definition))
  }

  /** Given sections were built against the current definition; none were, if none were given. */
  ghost predicate Rebuilt(sections: Option<seq<Build.SectionInput>>, current: Definition, draws: seq<string>,
                          rebuilt: Option<Definition>)
  {
    && (rebuilt.Some? <==> sections.Some?)
    && (rebuilt.Some? ==>
          && Distinct(IdsOf(rebuilt.value)) && TotalItems(rebuilt.value) <= MAX_ITEMS
          && Build.Built(sections.value, rebuilt.value, Build.Reserved(current), draws))
  }

  /** Sections within the limits of a request are stored so that they read back. */
  lemma RebuiltReadsBack(t: Template, sections: seq<Build.SectionInput>, current: Definition, draws: seq<string>,
                         rebuilt: Definition)
    requires Rebuilt(Some(sections), current, draws, Some(rebuilt)) && Stores(t, rebuilt)
    requires Build.WithinLimits(sections) && Build.RandomIds(draws)
    ensures Parse(t.definition) == Some(rebuilt)
  {
    Build.BuiltReadsBack(sections, rebuilt, Build.Reserved(current), draws);
  }

  /** Why the sections of a request cannot be built. */
  ghost predicate BuildFails(sections: seq<Build.SectionInput>, current: Definition, error: Build.BuildError) {
    if error == Build.TooLarge then Build.InputItems(sections) > MAX_ITEMS
    else Build.RefusedFor(sections, current, error)
  }

  /** What a request must have found: the template, readable, at the version it knows, in an
      open property. Otherwise it is refused for the first of these. */
  predicate IsCurrent(store: Store, id: string, expectedVersion: int, propertyOpen: bool) {
    && id in store.templates && Parse(store.templates[id].definition).Some?
    && store.templates[id].version == expectedVersion && propertyOpen
  }

  predicate NotCurrentFor(store: Store, id: string, expectedVersion: int, propertyOpen: bool, error: PublishError) {
    if id !in store.templates then error == TemplateNotFound
    else if Parse(store.templates[id].definition).None? then error == InvalidStored
    else if store.templates[id].version != expectedVersion then error == VersionConflict
    else !propertyOpen && error == PropertyUnavailable
  }

  /** Why an update of the current version is refused. */
  ghost predicate ChangeFails(store: Store, id: string, read: Definition,
                              sections: Option<seq<Build.SectionInput>>, rebuilt: Option<Definition>,
                              draws: seq<string>, error: PublishError)
    requires id in store.templates
  {
    var current := store.templates[id];
    match error
    case NotBuilt(why) => sections.Some? && BuildFails(sections.value, read, why)
    case HistoryUnavailable => !HasVersion(ArchiveOf(store, id), current.version)
    case InvalidStored =>
      rebuilt.Some? && Rebuilt(sections, read, draws, rebuilt) && Parse(ToJson(rebuilt.value)).None?
    case ArchiveConflict => HasVersion(ArchiveOf(store, current.id), current.version + 1)
    case _ => false
  }

  ghost predicate UpdateFails(store: Store, id: string, expectedVersion: int,
                              sections: Option<seq<Build.SectionInput>>, rebuilt: Option<Definition>,
                              draws: seq<string>, propertyOpen: bool, error: PublishError) {
    if IsCurrent(store, id, expectedVersion, propertyOpen)
    then ChangeFails(store, id, Parse(store.templates[id].definition).value, sections, rebuilt, draws, error)
    else NotCurrentFor(store, id, expectedVersion, propertyOpen, error)
  }

  lemma PublishRefusal(store: Store, template: Template, publisher: Publisher)
    ensures match Publish(store, template, publisher)
            case Ok(_) => true
            case Err(error) =>
              if Parse(template.definition).None? then error == InvalidStored
              else error == ArchiveConflict && HasVersion(ArchiveOf(store, template.id), template.version)
  {
    if Parse(template.definition).Some? {
      var row := PublishedRow(template, Parse(template.definition).value, publisher);
      assert row.version == template.version;
    }
  }

  lemma CurrentReadsBack(value: Json)
    requires Parse(value).Some?
    ensures Parse(ToJson(Parse(value).value)).Some?
  {
    ParseYieldsCanonical(Parse(value).value);
    RoundTrip(Parse(value).value);
  }

  lemma PublishFails(store: Store, id: string, sections: Option<seq<Build.SectionInput>>, rebuilt: Option<Definition>,
                     draws: seq<string>, title: string, isActive: bool, now: int, publisher: Publisher)
    requires id in store.templates && Parse(store.templates[id].definition).Some?
    requires Rebuilt(sections, Parse(store.templates[id].definition).value, draws, rebuilt)
    ensures var current := store.templates[id];
            var next := NextTemplate(current, title, Value(rebuilt, Parse(current.definition).value), isActive, now);
            match Publish(store, next, publisher)
            case Ok(_) => true
            case Err(InvalidStored) => rebuilt.Some? && Parse(ToJson(rebuilt.value)).None?
            case Err(error) => error == ArchiveConflict && HasVersion(ArchiveOf(store, current.id), current.version + 1)
  {
    var current := store.templates[id];
    CurrentReadsBack(current.definition);
    PublishRefusal(store, NextTemplate(current, title, Value(rebuilt, Parse(current.definition).value), isActive, now),
                   publisher);
  }

  lemma {:induction false} InsertHolds(rows: Archive, row: Version)
    ensures forall r :: r in Insert(rows, row) <==> r in rows || r == row
  {
    if rows != [] {
      assert rows == [rows[0]] + rows[1..];
      InsertHolds(rows[1..], row);
    }
  }

  lemma RowArchived(template: Template, publisher: Publisher)
    requires Parse(template.definition).Some?
    ensures ArchivedAs(PublishedRow(template, Parse(template.definition).value, publisher), template, publisher)
  {
    var saved := Parse(template.definition).value;
    ParseYieldsCanonical(saved);
    RoundTrip(saved);
  }

  lemma RowGained(rows: Archive, row: Version, template: Template, publisher: Publisher)
    requires ArchivedAs(row, template, publisher)
    ensures GainsRow(rows, Insert(rows, row), template, publisher)
  {
    InsertHolds(rows, row);
  }

  lemma PublishPublishes(store: Store, template: Template, publisher: Publisher)
    ensures var r := Publish(store, template, publisher);
            r.Ok? ==> Publishes(store, r.value, template.id, publisher) && r.value.templates[template.id] == template
  {
    var r := Publish(store, template, publisher);
    if r.Ok? {
      var rows, row := ArchiveOf(store, template.id),
                       PublishedRow(template, Parse(template.definition).value, publisher);
      RowArchived(template, publisher);
      RowGained(rows, row, template, publisher);
      assert ArchiveOf(r.value, template.id) == Insert(rows, row);
    }
  }

  lemma ToJsonStores(t: Template, definition: Definition)
    requires t.definition == ToJson(definition)
    ensures Stores(t, definition)
  {
    if Canonical(definition) {
      RoundTrip(definition);
    }
  }

  lemma CreateMeans(store: Store, id: string, propertyId: string, kind: string, title: string,
                    definition: Definition, now: int, publisher: Publisher)
    ensures var r := Created(store, id, propertyId, kind, title, definition, now, publisher);
            r.Ok? ==> CreateEffect(store, r.value, id, propertyId, kind, title, definition, now, publisher)
  {
    var template := Template(id, propertyId, kind, title, 1, ToJson(definition), true, now);
    PublishPublishes(store, template, publisher);
    ToJsonStores(template, definition);
  }

  lemma NextTakes(was: Template, title: Option<string>, rebuilt: Option<Definition>, isActive: Option<bool>, now: int)
    requires Parse(was.definition).Some?
    ensures Takes(NextTemplate(was, Value(title, was.title), Value(rebuilt, Parse(was.definition).value),
                               Value(isActive, was.isActive), now), was, title, rebuilt, isActive, now)
  {
    var definition := Value(rebuilt, Parse(was.definition).value);
    ToJsonStores(NextTemplate(was, Value(title, was.title), definition, Value(isActive, was.isActive), now),
                 definition);
  }

  /** An update that changes something goes on to publish the next template. */
  lemma UpdatedPublishes(store: Store, id: string, expectedVersion: int, title: Option<string>,
                         rebuilt: Option<Definition>, isActive: Option<bool>, now: int, publisher: Publisher)
    ensures var r := Updated(store, id, expectedVersion, title, rebuilt, isActive, now, publisher);
            r.Ok? ==>
              && id in store.templates && Parse(store.templates[id].definition).Some?
              && (var was := store.templates[id];
                  if !AsksForChange(was, title, rebuilt, isActive) then r.value == store
                  else r == Publish(store, NextTemplate(was, Value(title, was.title),
                                                        Value(rebuilt, Parse(was.definition).value),
                                                        Value(isActive, was.isActive), now), publisher))
  {
  }

  lemma UpdateMeans(store: Store, id: string, expectedVersion: int, title: Option<string>,
                    rebuilt: Option<Definition>, isActive: Option<bool>, now: int, publisher: Publisher)
    requires id in store.templates ==> store.templates[id].id == id
    ensures var r := Updated(store, id, expectedVersion, title, rebuilt, isActive, now, publisher);
            r.Ok? ==> UpdateEffect(store, r.value, id, title, rebuilt, isActive, now, publisher)
  {
    var r := Updated(store, id, expectedVersion, title, rebuilt, isActive, now, publisher);
    UpdatedPublishes(store, id, expectedVersion, title, rebuilt, isActive, now, publisher);
    if r.Ok? && AsksForChange(store.templates[id], title, rebuilt, isActive) {
      var was := store.templates[id];
      var next := NextTemplate(was, Value(title, was.title), Value(rebuilt, Parse(was.definition).value),
                               Value(isActive, was.isActive), now);
      NextTakes(was, title, rebuilt, isActive, now);
      PublishPublishes(store, next, publisher);
      assert next.id == id;
    }
  }

  // ---------------------------------------------------------------- the service

  class ChecklistTables {
    const accounts: Accounts.AccountTable
    var templates: map<string, Template>
    var archives: map<string, Archive>

    constructor (accounts: Accounts.AccountTable)
      ensures this.accounts == accounts && Tables() == Store(map[], map[])
    {
      this.accounts, templates, archives := accounts, map[], map[];
    }

    function Tables(): Store
      reads this
    {
      Store(templates, archives)
    }

    /** Saves the template and archives it as it reads back; on an error the
        transaction leaves nothing. */
    method SaveAndArchive(template: Template, publisher: Publisher) returns (r: Result<(), PublishError>)
      modifies this
      ensures var was := old(Tables());
              match Publish(was, template, publisher)
              case Ok(next) => r.Ok? && Tables() == next
              case Err(error) => r == Err(error) && Tables() == was
    {
      var saved := ParseChecklistDefinition(template.definition);
      if saved.None? {
        return Err(InvalidStored);
      }
      var row := PublishedRow(template, saved.value, publisher);
      var rows := if template.id in archives then archives[template.id] else [];
      if HasVersion(rows, row.version) {
        return Err(ArchiveConflict);
      }
      templates := templates[template.id := template];
      archives := archives[template.id := Insert(rows, row)];
      return Ok(());
    }

    method Create(id: string, propertyId: string, kind: string, title: string, sections: seq<Build.SectionInput>,
                  draws: seq<string>, propertyOpen: bool, actor: string, now: int)
      returns (r: Result<(), PublishError>, ghost built: Definition)
      modifies this
      ensures r.Err? ==> Tables() == old(Tables())
      ensures r.Ok? ==> && propertyOpen && FindPublisher(accounts.users, actor).Some? && Distinct(IdsOf(built))
                        && Build.Built(sections, built, {}, draws) && TotalItems(built) <= MAX_ITEMS
                        && Created(old(Tables()), id, propertyId, kind, title, built, now,
                                   FindPublisher(accounts.users, actor).value)
                           == Ok(Tables())
                        && CreateEffect(old(Tables()), Tables(), id, propertyId, kind, title, built, now,
                                        FindPublisher(accounts.users, actor).value)
      ensures r.Err? ==> || (r.error.NotBuilt? && BuildFails(sections, [], r.error.error))
                         || r.error == if FindPublisher(accounts.users, actor).None? then Unauthorized
                                       else if !propertyOpen then PropertyUnavailable
                                       else if Exists(old(Tables()), propertyId, kind) then TemplateExists
                                       else if Parse(ToJson(built)).None? then InvalidStored else ArchiveConflict
    {
      built := [];
      var definition := Build.BuildChecklistDefinition(sections, None, draws);
      if definition.Err? {
        return Err(NotBuilt(definition.error)), [];
      }
      built := definition.value;
      var publisher := FindPublisher(accounts.users, actor);
      if publisher.None? {
        return Err(Unauthorized), built;
      }
      if !propertyOpen {
        return Err(PropertyUnavailable), built;
      }
      if exists other :: other in templates && templates[other].propertyId == propertyId
                         && templates[other].kind == kind {
        return Err(TemplateExists), built;
      }
      CreateMeans(Tables(), id, propertyId, kind, title, built, now, publisher.value);
      r := SaveAndArchive(Template(id, propertyId, kind, title, 1, ToJson(definition.value), true, now),
                          publisher.value);
    }

    /** The sections are rebuilt against the current definition only when given. */
    static method Rebuild(sections: Option<seq<Build.SectionInput>>, current: Definition, draws: seq<string>)
      returns (r: Result<Definition, Build.BuildError>, ghost rebuilt: Option<Definition>)
      ensures r.Ok? ==> Rebuilt(sections, current, draws, rebuilt) && r.value == Value(rebuilt, current)
      ensures r.Err? ==> sections.Some? && BuildFails(sections.value, current, r.error)
    {
      if sections.None? {
        return Ok(current), None;
      }
      r := Build.BuildChecklistDefinition(sections.value, Some(current), draws);
      rebuilt := if r.Ok? then Some(r.value) else None;
    }

    /** Reads the template that the caller knows. */
    method ReadCurrent(id: string, expectedVersion: int, propertyOpen: bool)
      returns (r: Result<Definition, PublishError>)
      ensures if IsCurrent(Tables(), id, expectedVersion, propertyOpen)
              then r == Ok(Parse(templates[id].definition).value)
              else r.Err? && NotCurrentFor(Tables(), id, expectedVersion, propertyOpen, r.error)
    {
      if id !in templates {
        return Err(TemplateNotFound);
      }
      var read := ParseChecklistDefinition(templates[id].definition);
      if read.None? {
        return Err(InvalidStored);
      }
      if expectedVersion != templates[id].version {
        return Err(VersionConflict);
      }
      if !propertyOpen {
        return Err(PropertyUnavailable);
      }
      return Ok(read.value);
    }

    method UpdateBy(publisher: Publisher, id: string, expectedVersion: int, title: Option<string>,
                    sections: Option<seq<Build.SectionInput>>, isActive: Option<bool>, draws: seq<string>,
                    propertyOpen: bool, now: int)
      returns (r: Result<(), PublishError>, ghost rebuilt: Option<Definition>)
      modifies this
      ensures r.Err? ==> Tables() == old(Tables())
      ensures r.Ok? ==> && IsCurrent(old(Tables()), id, expectedVersion, propertyOpen)
                        && Rebuilt(sections, Parse(old(templates)[id].definition).value, draws, rebuilt)
                        && Updated(old(Tables()), id, expectedVersion, title, rebuilt, isActive, now, publisher)
                           == Ok(Tables())
      ensures r.Err? ==>
                UpdateFails(old(Tables()), id, expectedVersion, sections, rebuilt, draws, propertyOpen, r.error)
    {
      rebuilt := None;
      var read := ReadCurrent(id, expectedVersion, propertyOpen);
      if read.Err? {
        return Err(read.error), None;
      }
      var current := templates[id];
      var definition;
      definition, rebuilt := Rebuild(sections, read.value, draws);
      if definition.Err? {
        return Err(NotBuilt(definition.error)), None;
      }
      var newTitle, active := Value(title, current.title), Value(isActive, current.isActive);
      if newTitle == current.title && active == current.isActive && definition.value == read.value {
        return Ok(()), rebuilt;
      }
      if !HasVersion(if id in archives then archives[id] else [], current.version) {
        return Err(HistoryUnavailable), rebuilt;
      }
      PublishFails(Tables(), id, sections, rebuilt, draws, newTitle, active, now, publisher);
      r := SaveAndArchive(NextTemplate(current, newTitle, definition.value, active, now), publisher);
    }

    method Update(id: string, expectedVersion: int, title: Option<string>,
                  sections: Option<seq<Build.SectionInput>>, isActive: Option<bool>, draws: seq<string>,
                  propertyOpen: bool, actor: string, now: int)
      returns (r: Result<(), PublishError>, ghost rebuilt: Option<Definition>)
      modifies this
      ensures r.Err? ==> Tables() == old(Tables())
      ensures r.Ok? ==> && propertyOpen && FindPublisher(accounts.users, actor).Some?
                        && id in old(templates) && Parse(old(templates)[id].definition).Some?
                        && Rebuilt(sections, Parse(old(templates)[id].definition).value, draws, rebuilt)
                        && Updated(old(Tables()), id, expectedVersion, title, rebuilt, isActive, now,
                                   FindPublisher(accounts.users, actor).value)
                           == Ok(Tables())
      ensures r.Ok? && old(templates)[id].id == id ==>
                UpdateEffect(old(Tables()), Tables(), id, title, rebuilt, isActive, now,
                             FindPublisher(accounts.users, actor).value)
      ensures title.None? && sections.None? && isActive.None? <==> r == Err(EmptyUpdate)
      ensures r.Err? && r.error != EmptyUpdate ==>
                if FindPublisher(accounts.users, actor).None? then r.error == Unauthorized
                else UpdateFails(old(Tables()), id, expectedVersion, sections, rebuilt, draws, propertyOpen, r.error)
    {
      if title.None? && sections.None? && isActive.None? {
        return Err(EmptyUpdate), None;
      }
      var publisher := FindPublisher(accounts.users, actor);
      if publisher.None? {
        return Err(Unauthorized), None;
      }
      ghost var was := Tables();
      r, rebuilt := UpdateBy(publisher.value, id, expectedVersion, title, sections, isActive, draws, propertyOpen, now);
      if r.Ok? && was.templates[id].id == id {
        UpdateMeans(was, id, expectedVersion, title, rebuilt, isActive, now, publisher.value);
      }
    }
  }
}
