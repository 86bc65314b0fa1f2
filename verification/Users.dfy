/** The user record and the rules of internal/domain/entity/user.go, on values. */
module Users {
  import opened Common
  import opened Uuids
  import opened NormalForms

  /** Go's `Role` is a string; these are the three constants, and any other text. */
  datatype Role = Owner | Admin | Member | Other(text: string)

  /** Times are nanoseconds since the epoch. */
  datatype UserData = UserData(id: Uuid, email: string, hash: string, name: string, role: Role, active: bool,
                               createdAt: int, updatedAt: int)

  predicate CanManageRoles(role: Role) { role == Owner || role == Admin }

  function NewUser(cs: Charset, id: Uuid, email: string, hash: string, name: string, role: Role,
      now: int): Option<UserData>
  {
    match NewName(cs, name)
    case None => None
    case Some(trimmed) => Some(UserData(id, email, hash, trimmed, role, true, now, now))
  }

  function UpdateName(cs: Charset, u: UserData, name: string, now: int): Option<UserData> {
    match NewName(cs, name)
    case None => None
    case Some(trimmed) => Some(u.(name := trimmed, updatedAt := now))
  }

  function UpdatePassword(u: UserData, hash: string, now: int): UserData { u.(hash := hash, updatedAt := now) }

  /** Only an owner changes roles, and not its own. */
  function ChangeRole(u: UserData, role: Role, actor: UserData, now: int): Option<UserData> {
    if actor.role != Owner || actor.id == u.id then None else Some(u.(role := role, updatedAt := now))
  }

  /** What every constructor and update keeps of a record. */
  ghost predicate WellKept(cs: Charset, u: UserData) { NormalEmail(cs, u.email) && NormalName(cs, u.name) }

  lemma RenamedWell(cs: Charset, u: UserData, name: string, now: int)
    requires WellKept(cs, u) && UpdateName(cs, u, name, now).Some?
    ensures var u' := UpdateName(cs, u, name, now).value;
      WellKept(cs, u') && u'.id == u.id && u'.email == u.email && u'.role == u.role
  {
    NewNameIdempotent(cs, name);
  }

  type Table = map<Uuid, UserData>

  predicate HasEmail(t: Table, email: string) { exists id :: id in t && t[id].email == email }

  /** Each record is stored under its own identifier. */
  ghost predicate Keyed(t: Table) { forall id :: id in t ==> t[id].id == id }
}
