/** Runs of everything that writes checklists or the accounts of those who publish them:
    the inspection accepts every template at every moment. */
module ChecklistRuns {
  import opened Wrappers
  import opened Text
  import opened ChecklistDefinition
  import opened ChecklistArchive
  import opened ChecklistPublishing
  import Accounts = AdminAccounts

  datatype World = World(store: Store, users: Accounts.Users)

  const EMPTY := World(Store(map[], map[]), map[])

  /** One request of a run. A definition arrives as it was built from the request, and the
      publisher is whoever sent it. */
  datatype Step =
    | Create(id: string, propertyId: string, kind: string, newTitle: string, built: Definition, now: int,
             actor: string)
    | Update(id: string, expectedVersion: int, title: Option<string>, rebuilt: Option<Definition>,
             isActive: Option<bool>, now: int, actor: string)
    | Backfill(id: string)
    | Account(step: Accounts.Step)

  function ApplyStore(w: World, step: Step): Store {
    match step
    case Create(id, propertyId, kind, title, definition, now, actor) =>
      var publisher := FindPublisher(w.users, actor);
      if publisher.None? then w.store
      else
        (match Created(w.store, id, propertyId, kind, title, definition, now, publisher.value)
         case Ok(next) => next
         case Err(_) => w.store)
    case Update(id, expectedVersion, title, rebuilt, isActive, now, actor) =>
      var publisher := FindPublisher(w.users, actor);
      if publisher.None? then w.store
      else
        (match Updated(w.store, id, expectedVersion, title, rebuilt, isActive, now, publisher.value)
         case Ok(next) => next
         case Err(_) => w.store)
    case Backfill(id) =>
      (match Backfilled(w.store, id)
       case Ok(next) => next.0
       case Err(_) => w.store)
    case Account(_) => w.store
  }

  function Apply(w: World, step: Step): World {
    World(ApplyStore(w, step), if step.Account? then Accounts.Apply(w.users, step.step) else w.users)
  }

  /** A request as the service receives it: within the limits of the request, and with a
      fresh id for what is new. */
  predicate Admissible(w: World, step: Step) {
    match step
    case Create(id, _, _, title, definition, _, _) =>
      id !in w.store.templates && IsUuidV4(id) && TitleRequest(title) && Canonical(definition)
    case Update(_, expectedVersion, title, rebuilt, _, _, _) =>
      && expectedVersion < MAX_VERSION && (title.Some? ==> TitleRequest(title.value))
      && (rebuilt.Some? ==> Canonical(rebuilt.value))
    case Backfill(_) => true
    case Account(account) => Accounts.Admissible(w.users, account)
  }

  ghost predicate WorldSound(w: World) {
    Sound(w.store) && Accounts.Named(w.users)
  }

  lemma CreatedTouches(w: World, step: Step)
    requires step.Create?
    ensures ApplyStore(w, step) != w.store ==> OnlyTouches(w.store, ApplyStore(w, step), step.id)
  {
    if ApplyStore(w, step) != w.store {
      PublishTouches(w.store, Template(step.id, step.propertyId, step.kind, step.newTitle, 1, ToJson(step.built), true,
                                       step.now), FindPublisher(w.users, step.actor).value);
    }
  }

  lemma UpdatedTouches(w: World, step: Step)
    requires step.Update? && step.id in w.store.templates && w.store.templates[step.id].id == step.id
    ensures ApplyStore(w, step) != w.store ==> OnlyTouches(w.store, ApplyStore(w, step), step.id)
  {
    if ApplyStore(w, step) != w.store {
      var current := w.store.templates[step.id];
      var read := Parse(current.definition).value;
      PublishTouches(w.store, NextTemplate(current, Value(step.title, current.title), Value(step.rebuilt, read),
                                           Value(step.isActive, current.isActive), step.now),
                     FindPublisher(w.users, step.actor).value);
    }
  }

  lemma BackfilledTouches(w: World, step: Step)
    requires step.Backfill? && step.id in w.store.templates
    ensures ApplyStore(w, step) != w.store ==> OnlyTouches(w.store, ApplyStore(w, step), step.id)
  {
  }

  /** Whoever the account table lets publish is one whom the archive accepts. */
  lemma PublisherIsValid(users: Accounts.Users, actor: string)
    requires Accounts.Named(users) && FindPublisher(users, actor).Some?
    ensures var publisher := FindPublisher(users, actor).value;
            ValidPublisher(Some(publisher.id), Some(publisher.name))
  {
  }

  lemma StoreStepKeeps(w: World, step: Step)
    requires WorldSound(w) && Admissible(w, step) && ApplyStore(w, step) != w.store
    ensures Sound(ApplyStore(w, step)) && KeepsArchived(w.store, ApplyStore(w, step))
  {
    var store, next := w.store, ApplyStore(w, step);
    match step {
      case Create(id, propertyId, kind, title, definition, now, actor) =>
        PublisherIsValid(w.users, actor);
        CreateKeeps(store, id, propertyId, kind, title, definition, now, FindPublisher(w.users, actor).value);
        CreatedTouches(w, step);
      case Update(id, expectedVersion, title, rebuilt, isActive, now, actor) =>
        PublisherIsValid(w.users, actor);
        assert ChainSound(store, id);
        UpdateKeeps(store, id, expectedVersion, title, rebuilt, isActive, now, FindPublisher(w.users, actor).value);
        UpdatedTouches(w, step);
      case Backfill(id) =>
        assert ChainSound(store, id);
        BackfillKeeps(store, id);
        BackfilledTouches(w, step);
    }
    TouchedSound(store, next, step.id);
    TouchedKeepsArchived(store, next, step.id);
  }

  lemma StepKeeps(w: World, step: Step)
    requires WorldSound(w) && Admissible(w, step)
    ensures WorldSound(Apply(w, step)) && KeepsArchived(w.store, Apply(w, step).store)
  {
    if ApplyStore(w, step) != w.store {
      StoreStepKeeps(w, step);
    }
    if step.Account? {
      Accounts.StepKeepsNames(w.users, step.step);
    }
  }

  function Run(w: World, steps: seq<Step>): World
    decreases |steps|
  {
    if steps == [] then w else Run(Apply(w, steps[0]), steps[1..])
  }

  predicate AllAdmissible(w: World, steps: seq<Step>)
    decreases |steps|
  {
    steps == [] || (Admissible(w, steps[0]) && AllAdmissible(Apply(w, steps[0]), steps[1..]))
  }

  /** Over any run of publications, backfills and account changes the inspection accepts
      every template, an archived template stays archived, and a template published in the
      run is archived from the start. */
  lemma {:induction false} RunKeeps(w: World, steps: seq<Step>)
    requires WorldSound(w) && AllAdmissible(w, steps)
    ensures WorldSound(Run(w, steps)) && KeepsArchived(w.store, Run(w, steps).store)
    decreases |steps|
  {
    if steps != [] {
      StepKeeps(w, steps[0]);
      RunKeeps(Apply(w, steps[0]), steps[1..]);
    }
  }

  /** From empty tables on, whatever the order of requests, the inspection accepts every
      template and finds none without an archive. */
  lemma WritersNeverBreakAChain(steps: seq<Step>, id: string)
    requires AllAdmissible(EMPTY, steps) && id in Run(EMPTY, steps).store.templates
    ensures var store := Run(EMPTY, steps).store;
            Inspected(Find(store, id), ArchiveOf(store, id)) == Ok(false)
  {
    RunKeeps(EMPTY, steps);
    var store := Run(EMPTY, steps).store;
    assert ChainSound(store, id) && Archived(store, id);
    InspectionAccepts(store.templates[id], ArchiveOf(store, id));
  }

  /** A template that a backfill visited once gets nothing from a later one, whatever is
      published in between. */
  lemma SecondBackfillCreatesNothing(w: World, id: string, between: seq<Step>)
    requires WorldSound(w) && id in w.store.templates
    requires AllAdmissible(Apply(w, Backfill(id)), between)
    ensures var later := Run(Apply(w, Backfill(id)), between).store;
            Backfilled(later, id) == Ok((later, false))
  {
    assert ChainSound(w.store, id);
    BackfillKeeps(w.store, id);
    StepKeeps(w, Backfill(id));
    RunKeeps(Apply(w, Backfill(id)), between);
    var later := Run(Apply(w, Backfill(id)), between).store;
    assert ChainSound(later, id);
    BackfillKeeps(later, id);
  }

  /** A run visits what has no archive yet. */
  ghost predicate Visits(w: World, steps: seq<Step>) {
    forall id :: id in w.store.templates && !Archived(w.store, id) ==> Backfill(id) in steps
  }

  lemma VisitsOn(w: World, steps: seq<Step>)
    requires WorldSound(w) && steps != [] && Admissible(w, steps[0]) && Visits(w, steps)
    ensures Visits(Apply(w, steps[0]), steps[1..])
  {
    var next := Apply(w, steps[0]).store;
    StepKeeps(w, steps[0]);
    forall id | id in next.templates && !Archived(next, id) ensures Backfill(id) in steps[1..] {
      assert Backfill(id) in steps && ChainSound(w.store, id);
      BackfillKeeps(w.store, id);
    }
  }

  /** Every template has an archive, and one that the inspection accepts. */
  ghost predicate AllArchived(store: Store) {
    forall id {:trigger ChainSound(store, id)} :: id in store.templates ==> Archived(store, id) && ChainSound(store, id)
  }

  /** The visits of a backfill, with any other writers between and around them, leave every
      template archived and accepted. */
  lemma {:induction false} VisitsArchiveAll(w: World, steps: seq<Step>)
    requires WorldSound(w) && AllAdmissible(w, steps) && Visits(w, steps)
    ensures AllArchived(Run(w, steps).store)
    decreases |steps|
  {
    if steps == [] {
      forall id | id in w.store.templates ensures Archived(w.store, id) && ChainSound(w.store, id) {
        assert Backfill(id) !in steps;
      }
    } else {
      VisitsOn(w, steps);
      StepKeeps(w, steps[0]);
      VisitsArchiveAll(Apply(w, steps[0]), steps[1..]);
    }
  }
}
