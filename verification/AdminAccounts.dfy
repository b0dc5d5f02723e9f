/** The accounts of administrators and workers: who writes an administrator's name, and
    what the archive of checklists may rely on. */
module AdminAccounts {
  import opened Wrappers
  import opened Text
  import opened ChecklistDefinition
  import opened ChecklistArchive

  datatype Role = Admin | Staff

  datatype User = User(role: Role, name: string, active: bool, sessionVersion: int, updatedAt: int)

  type Users = map<string, User>

  datatype Session = Session(actor: string, version: int)

  datatype AccountError = NameInvalid | AdministratorExists | SessionChanged | AccountChanged

  /** A name as the setup command takes it, which counts UTF-16 code units. */
  function SetupName(raw: string): Option<string> {
    if Trim(raw) == "" || Utf16Length(Trim(raw)) > MAX_NAME then None else Some(Trim(raw))
  }

  /** A name as a request takes it. */
  function RequestName(raw: string): Option<string> {
    if Trim(raw) == "" || |Trim(raw)| > MAX_NAME then None else Some(Trim(raw))
  }

  /** The session belongs to an active administrator and was not ended. */
  predicate SignedIn(users: Users, session: Session) {
    && session.actor in users && users[session.actor].role == Admin && users[session.actor].active
    && users[session.actor].sessionVersion == session.version
  }

  function AdministratorCreated(users: Users, id: string, raw: string, now: int): Result<Users, AccountError> {
    if SetupName(raw).None? then Err(NameInvalid)
    else if exists other :: other in users && users[other].role == Admin then Err(AdministratorExists)
    else Ok(users[id := User(Admin, SetupName(raw).value, true, 0, now)])
  }

  function ProfileUpdated(users: Users, session: Session, expectedUpdatedAt: int, raw: string, now: int)
    : Result<Users, AccountError>
  {
    if RequestName(raw).None? then Err(NameInvalid)
    else if !SignedIn(users, session) then Err(SessionChanged)
    else if users[session.actor].updatedAt != expectedUpdatedAt then Err(AccountChanged)
    else
      Ok(users[session.actor := users[session.actor].(name := RequestName(raw).value,
                                                      updatedAt := Max(now, expectedUpdatedAt + 1))])
  }

  // ---------------------------------------------------------------- what the two requests write

  /** Everybody else's account is as it was. */
  predicate OnlyAccount(users: Users, next: Users, id: string) {
    && id in next && next.Keys == users.Keys + {id}
    && forall other :: other in users && other != id ==> next[other] == users[other]
  }

  /** The setup adds an active administrator with the trimmed name, if that is not empty and
      has at most a hundred UTF-16 units and there is no administrator yet. */
  lemma SetupMeans(users: Users, id: string, raw: string, now: int)
    ensures match AdministratorCreated(users, id, raw, now)
            case Ok(next) =>
              && OnlyAccount(users, next, id) && 1 <= Utf16Length(Trim(raw)) <= 100
              && (forall other :: other in users ==> users[other].role != Admin)
              && (var user := next[id];
                  && user.role == Admin && user.name == Trim(raw) && user.active && user.sessionVersion == 0
                  && user.updatedAt == now)
            case Err(NameInvalid) => Trim(raw) == "" || Utf16Length(Trim(raw)) > 100
            case Err(why) => why == AdministratorExists && exists other :: other in users && users[other].role == Admin
  {
    Utf16IsNoShorter(Trim(raw));
  }

  /** A profile takes the trimmed name of one to a hundred characters in a running session
      of an active administrator that has seen the last change, and nothing else. */
  lemma ProfileMeans(users: Users, session: Session, expectedUpdatedAt: int, raw: string, now: int)
    ensures match ProfileUpdated(users, session, expectedUpdatedAt, raw, now)
            case Ok(next) =>
              && OnlyAccount(users, next, session.actor) && session.actor in users && 1 <= |Trim(raw)| <= 100
              && (var was, user := users[session.actor], next[session.actor];
                  && was.role == Admin && was.active && was.sessionVersion == session.version
                  && was.updatedAt == expectedUpdatedAt
                  && user.role == Admin && user.active && user.sessionVersion == session.version
                  && user.name == Trim(raw) && now <= user.updatedAt && was.updatedAt < user.updatedAt
                  && (user.updatedAt == now || user.updatedAt == was.updatedAt + 1))
            case Err(NameInvalid) => Trim(raw) == "" || |Trim(raw)| > 100
            case Err(SessionChanged) =>
              session.actor in users ==>
                var was := users[session.actor];
                was.role != Admin || !was.active || was.sessionVersion != session.version
            case Err(why) =>
              why == AccountChanged && SignedIn(users, session) && users[session.actor].updatedAt != expectedUpdatedAt
  {
  }

  class AccountTable {
    var users: Users

    constructor ()
      ensures users == map[]
    {
      users := map[];
    }

    /** The setup command: only for a table without any administrator. */
    method CreateAdministrator(id: string, raw: string, now: int) returns (r: Result<(), AccountError>)
      modifies this
      ensures match AdministratorCreated(old(users), id, raw, now)
              case Ok(next) => r.Ok? && users == next
              case Err(error) => r == Err(error) && users == old(users)
    {
      var name := Trim(raw);
      if name == "" || Utf16Length(name) > MAX_NAME {
        return Err(NameInvalid);
      }
      if exists other :: other in users && users[other].role == Admin {
        return Err(AdministratorExists);
      }
      users := users[id := User(Admin, name, true, 0, now)];
      return Ok(());
    }

    /** A compare-and-swap on the time of the last change; what failed is read afterwards. */
    method UpdateProfile(session: Session, expectedUpdatedAt: int, raw: string, now: int)
      returns (r: Result<(), AccountError>)
      modifies this
      ensures match ProfileUpdated(old(users), session, expectedUpdatedAt, raw, now)
              case Ok(next) => r.Ok? && users == next
              case Err(error) => r == Err(error) && users == old(users)
    {
      var name := Trim(raw);
      if name == "" || |name| > MAX_NAME {
        return Err(NameInvalid);
      }
      if SignedIn(users, session) && users[session.actor].updatedAt == expectedUpdatedAt {
        users := users[session.actor := users[session.actor].(name := name,
                                                              updatedAt := Max(now, expectedUpdatedAt + 1))];
        return Ok(());
      }
      return Err(if SignedIn(users, session) then AccountChanged else SessionChanged);
    }
  }

  // ---------------------------------------------------------------- all writers of accounts

  datatype Step =
    | CreateAdministrator(id: string, raw: string, now: int)
    | UpdateProfile(session: Session, expectedUpdatedAt: int, raw: string, now: int)
    | ChangePassword(session: Session, now: int)
    | CreateStaff(id: string, name: string, now: int)
    | UpdateStaff(id: string, newName: Option<string>, active: Option<bool>, now: int)

  function OrElse<T>(given: Option<T>, otherwise: T): T {
    if given.Some? then given.value else otherwise
  }

  function Apply(users: Users, step: Step): Users {
    match step
    case CreateAdministrator(id, raw, now) =>
      (match AdministratorCreated(users, id, raw, now)
       case Ok(next) => next
       case Err(_) => users)
    case UpdateProfile(session, expectedUpdatedAt, raw, now) =>
      (match ProfileUpdated(users, session, expectedUpdatedAt, raw, now)
       case Ok(next) => next
       case Err(_) => users)
    case ChangePassword(session, now) =>
      if !SignedIn(users, session) then users
      else users[session.actor := users[session.actor].(sessionVersion := session.version + 1, updatedAt := now)]
    case CreateStaff(id, name, now) => users[id := User(Staff, name, true, 0, now)]
    case UpdateStaff(id, newName, active, now) =>
      if id !in users || users[id].role != Staff then users
      else
        users[id := users[id].(name := OrElse(newName, users[id].name), active := OrElse(active, users[id].active),
                               updatedAt := now)]
  }

  /** A new account has a random id of its own. */
  predicate Admissible(users: Users, step: Step) {
    step.CreateAdministrator? || step.CreateStaff? ==> step.id !in users && IsUuidV4(step.id)
  }

  /** The administrator who publishes, as the account table has them. */
  predicate MayPublish(users: Users, actor: string) {
    actor in users && users[actor].role == Admin && users[actor].active
  }

  /** There is at most one administrator, and whoever is one has a name and an id that the
      archive of checklists accepts. */
  predicate Named(users: Users) {
    && (forall id :: id in users && users[id].role == Admin ==> ValidPublisher(Some(id), Some(users[id].name)))
    && (forall a, b :: a in users && b in users && users[a].role == Admin && users[b].role == Admin ==> a == b)
  }

  lemma NameIsValid(raw: string)
    ensures SetupName(raw).Some? ==> RequestName(raw) == SetupName(raw)
    ensures RequestName(raw).Some? ==> ValidText(RequestName(raw).value, MAX_NAME)
  {
    TrimIsIdempotent(raw);
    Utf16IsNoShorter(Trim(raw));
  }

  lemma StepKeepsNames(users: Users, step: Step)
    requires Named(users) && Admissible(users, step)
    ensures Named(Apply(users, step))
  {
    if step.CreateAdministrator? || step.UpdateProfile? {
      NameIsValid(step.raw);
    }
  }

  function Run(users: Users, steps: seq<Step>): Users
    decreases |steps|
  {
    if steps == [] then users else Run(Apply(users, steps[0]), steps[1..])
  }

  predicate AllAdmissible(users: Users, steps: seq<Step>)
    decreases |steps|
  {
    steps == [] || (Admissible(users, steps[0]) && AllAdmissible(Apply(users, steps[0]), steps[1..]))
  }

  /** Whatever setup, profile, password and worker requests come, there is never more than
      one administrator, always with a valid id and a trimmed name of 1 to 100 characters. */
  lemma {:induction false} RunKeepsNames(users: Users, steps: seq<Step>)
    requires Named(users) && AllAdmissible(users, steps)
    ensures Named(Run(users, steps))
    decreases |steps|
  {
    if steps != [] {
      StepKeepsNames(users, steps[0]);
      RunKeepsNames(Apply(users, steps[0]), steps[1..]);
    }
  }
}
