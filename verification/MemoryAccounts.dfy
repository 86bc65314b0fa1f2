/**
 * The in-memory repository of internal/infrastructure/persistence/memory and the account use cases run on it one after
 * another. The repository hands out the stored objects themselves, so a use case mutates the store before it saves.
 */
module MemoryAccounts {
  import opened Common
  import opened Uuids
  import opened NormalForms
  import opened Users
  import opened Listings

  datatype Error = ErrInvalidPassword | ErrInvalidEmail | ErrInvalidName | ErrEmailAlreadyExists | ErrInternal
    | ErrUserNotFound | ErrInvalidCredentials | ErrAccountInactive | ErrInsufficientPerms | ErrServiceUnavailable

  /** The record a use case answers with, or its error. */
  datatype Outcome = Done(user: UserData) | Failed(error: Error)

  /**
   * A use case with its input. Drawn identifiers, clock readings and what the hasher and token service answer are
   * inputs.
   */
  datatype Command =
    | Register(input: string, name: string, passwordOk: bool, hash: Option<string>, first: Uuid, second: Uuid,
               now: int, later: int, pairOk: bool)
    | Login(input: string, verified: bool, pairOk: bool)
    | SetRole(actorId: Uuid, targetId: Uuid, role: Role, now: int)
    | SetName(id: Uuid, name: string, now: int)
    | SetPassword(id: Uuid, passwordOk: bool, verified: bool, hash: Option<string>, now: int)

  ghost predicate Fresh(t: Table, c: Command) { c.Register? ==> c.first !in t && c.second !in t && c.first != c.second }

  predicate HasOwner(t: Table) { exists id :: id in t && t[id].role == Owner }

  // ---- what each use case does to the table of records

  /**
   * The candidate claims ownership if nobody has it; otherwise a second record, drawn later, is saved as a plain user.
   */
  function ClaimedOrFallenBack(t: Table, candidate: UserData, second: Uuid, later: int): UserData {
    if HasOwner(t) then candidate.(id := second, role := Member, createdAt := later, updatedAt := later) else candidate
  }

  function AfterRegister(cs: Charset, t: Table, c: Command): (Table, Outcome)
    requires c.Register?
  {
    if !c.passwordOk then (t, Failed(ErrInvalidPassword))
    else
      match NewEmail(cs, c.input)
      case None => (t, Failed(ErrInvalidEmail))
      case Some(email) =>
        if HasEmail(t, email) then (t, Failed(ErrEmailAlreadyExists))
        else if c.hash.None? then (t, Failed(ErrInternal))
        else
          match NewUser(cs, c.first, email, c.hash.value, c.name, Owner, c.now)
          case None => (t, Failed(ErrInvalidName))
          case Some(candidate) =>
            var user := ClaimedOrFallenBack(t, candidate, c.second, c.later);
            (t[user.id := user], if c.pairOk then Done(user) else Failed(ErrServiceUnavailable))
  }

  function AfterSetRole(t: Table, c: Command): (Table, Outcome)
    requires c.SetRole?
  {
    if c.actorId !in t || c.targetId !in t then (t, Failed(ErrUserNotFound))
    else
      match ChangeRole(t[c.targetId], c.role, t[c.actorId], c.now)
      case None => (t, Failed(ErrInsufficientPerms))
      case Some(u) => (t[c.targetId := u], Done(u))
  }

  function AfterSetName(cs: Charset, t: Table, c: Command): (Table, Outcome)
    requires c.SetName?
  {
    if c.id !in t then (t, Failed(ErrUserNotFound))
    else
      match UpdateName(cs, t[c.id], c.name, c.now)
      case None => (t, Failed(ErrInvalidName))
      case Some(u) => (t[c.id := u], Done(u))
  }

  function AfterSetPassword(t: Table, c: Command): (Table, Outcome)
    requires c.SetPassword?
  {
    if !c.passwordOk then (t, Failed(ErrInvalidPassword))
    else if c.id !in t then (t, Failed(ErrUserNotFound))
    else if !c.verified then (t, Failed(ErrInvalidCredentials))
    else if c.hash.None? then (t, Failed(ErrInternal))
    else
      var u := UpdatePassword(t[c.id], c.hash.value, c.now);
      (t[c.id := u], Done(u))
  }

  /** The answer to a login for a stored record. */
  function LoginOutcome(u: UserData, c: Command): Outcome
    requires c.Login?
  {
    if !u.active then Failed(ErrAccountInactive)
    else if !c.verified then Failed(ErrInvalidCredentials)
    else if !c.pairOk then Failed(ErrServiceUnavailable)
    else Done(u)
  }

  /** The answer to a login. With distinct e-mails there is one record it can be about. */
  ghost function AfterLogin(cs: Charset, t: Table, c: Command): Outcome
    requires c.Login?
  {
    var email := NewEmail(cs, c.input);
    if email.None? || !HasEmail(t, email.value) then Failed(ErrInvalidCredentials)
    else
      var id :| id in t && t[id].email == email.value;
      LoginOutcome(t[id], c)
  }

  /** The table after a use case; logging in reads only. */
  function After(cs: Charset, t: Table, c: Command): Table {
    match c
    case Register(_, _, _, _, _, _, _, _, _) => AfterRegister(cs, t, c).0
    case Login(_, _, _) => t
    case SetRole(_, _, _, _) => AfterSetRole(t, c).0
    case SetName(_, _, _) => AfterSetName(cs, t, c).0
    case SetPassword(_, _, _, _, _) => AfterSetPassword(t, c).0
  }

  /** What the use case answers. */
  ghost function Answer(cs: Charset, t: Table, c: Command): Outcome {
    match c
    case Register(_, _, _, _, _, _, _, _, _) => AfterRegister(cs, t, c).1
    case Login(_, _, _) => AfterLogin(cs, t, c)
    case SetRole(_, _, _, _) => AfterSetRole(t, c).1
    case SetName(_, _, _) => AfterSetName(cs, t, c).1
    case SetPassword(_, _, _, _, _) => AfterSetPassword(t, c).1
  }

  // ---- what the use cases answer and change, field by field

  ghost predicate CanRegister(cs: Charset, t: Table, c: Command) {
    && c.Register? && c.passwordOk && c.hash.Some? && NewName(cs, c.name).Some?
    && NewEmail(cs, c.input).Some? && !HasEmail(t, NewEmail(cs, c.input).value)
  }

  /**
   * A registration that nothing rejects stores one record: the owner's with the first identifier if there is no owner,
   * otherwise a plain user's with the second and the later time.
   */
  lemma RegisterStores(cs: Charset, t: Table, c: Command)
    requires CanRegister(cs, t, c)
    ensures var (t', r) := AfterRegister(cs, t, c);
      var owned := exists id :: id in t && t[id].role == Owner;
      var id := if owned then c.second else c.first;
      && id in t' && t' == t[id := t'[id]] && r == (if c.pairOk then Done(t'[id]) else Failed(ErrServiceUnavailable))
      && t'[id].id == id && t'[id].role == (if owned then Member else Owner)
      && Some(t'[id].email) == NewEmail(cs, c.input) && Some(t'[id].hash) == c.hash
      && Some(t'[id].name) == NewName(cs, c.name)
      && t'[id].active && t'[id].createdAt == t'[id].updatedAt == (if owned then c.later else c.now)
  {
  }

  /** Each rejection of a registration, in the order of the checks; none of them stores anything. */
  lemma RegisterRejects(cs: Charset, t: Table, c: Command)
    requires c.Register?
    ensures var (t', r) := AfterRegister(cs, t, c);
      var email := NewEmail(cs, c.input);
      var free := email.Some? && !HasEmail(t, email.value);
      && (t' == t <== !CanRegister(cs, t, c))
      && (r == Failed(ErrInvalidPassword) <==> !c.passwordOk)
      && (r == Failed(ErrInvalidEmail) <==> c.passwordOk && email.None?)
      && (r == Failed(ErrEmailAlreadyExists) <==> c.passwordOk && email.Some? && !free)
      && (r == Failed(ErrInternal) <==> c.passwordOk && free && c.hash.None?)
      && (r == Failed(ErrInvalidName) <==> c.passwordOk && free && c.hash.Some? && NewName(cs, c.name).None?)
      && (r == Failed(ErrServiceUnavailable) <==> CanRegister(cs, t, c) && !c.pairOk)
      && (r.Done? <==> CanRegister(cs, t, c) && c.pairOk)
  {
    var email := NewEmail(cs, c.input);
    if CanRegister(cs, t, c) {
      RegisterStores(cs, t, c);
    } else if c.passwordOk && email.Some? && !HasEmail(t, email.value) && c.hash.Some? {
      assert NewUser(cs, c.first, email.value, c.hash.value, c.name, Owner, c.now).None?;
    }
  }

  /** With distinct e-mails, exactly when a login succeeds, and each refusal. */
  lemma LoginAnswers(cs: Charset, t: Table, c: Command, id: Uuid)
    requires c.Login? && EmailsApart(t)
    ensures var r, email := AfterLogin(cs, t, c), NewEmail(cs, c.input);
      if email.None? || !HasEmail(t, email.value) then r == Failed(ErrInvalidCredentials)
      else
        id in t && t[id].email == email.value ==>
          && (r.Done? <==> t[id].active && c.verified && c.pairOk) && (r.Done? ==> r.user == t[id])
          && (r == Failed(ErrAccountInactive) <==> !t[id].active)
          && (r == Failed(ErrInvalidCredentials) <==> t[id].active && !c.verified)
          && (r == Failed(ErrServiceUnavailable) <==> t[id].active && c.verified && !c.pairOk)
  {
  }

  lemma PutApart(t: Table, u: UserData)
    requires EmailsApart(t) && !HasEmail(t, u.email)
    ensures EmailsApart(t[u.id := u])
  {
  }

  /** Whoever has registered can log in with any spelling of the address, also if no tokens were issued at first. */
  lemma RegisteredCanLogin(cs: Charset, t: Table, c: Command, spelling: string, verified: bool)
    requires EmailsApart(t) && CanRegister(cs, t, c) && Fresh(t, c) && NewEmail(cs, spelling) == NewEmail(cs, c.input)
    ensures var t' := AfterRegister(cs, t, c).0;
      var id := if HasOwner(t) then c.second else c.first;
      id in t'
      && AfterLogin(cs, t', Login(spelling, verified, true))
        == if verified then Done(t'[id]) else Failed(ErrInvalidCredentials)
  {
    RegisterStores(cs, t, c);
    var t', id := AfterRegister(cs, t, c).0, if HasOwner(t) then c.second else c.first;
    PutApart(t, t'[id]);
    assert HasEmail(t', t'[id].email);
    LoginAnswers(cs, t', Login(spelling, verified, true), id);
  }

  /** An owner other than the target gives the target a role. */
  ghost predicate Promotes(t: Table, c: Command, id: Uuid) {
    c.SetRole? && c.targetId == id && c.actorId in t && t[c.actorId].role == Owner && c.actorId != id
  }

  /** The user with the right current password sets an acceptable new one. */
  ghost predicate SetsPassword(c: Command, id: Uuid, hash: string) {
    c.SetPassword? && c.id == id && c.passwordOk && c.verified && c.hash == Some(hash)
  }

  ghost predicate Renames(cs: Charset, c: Command, id: Uuid, name: string) {
    c.SetName? && c.id == id && NewName(cs, c.name) == Some(name)
  }

  /**
   * One use case on a stored record: exactly what gives it another role, hash or name, and at what time; address,
   * identifier, activity and creation time stay.
   */
  lemma RecordAfter(cs: Charset, t: Table, c: Command, id: Uuid)
    requires Keyed(t) && id in t && Fresh(t, c)
    ensures var t' := After(cs, t, c);
      && id in t'
      && t'[id].id == t[id].id && t'[id].email == t[id].email
      && t'[id].active == t[id].active && t'[id].createdAt == t[id].createdAt
      && (Promotes(t, c, id) ==> t'[id] == t[id].(role := c.role, updatedAt := c.now))
      && (forall h :: SetsPassword(c, id, h) ==> t'[id] == t[id].(hash := h, updatedAt := c.now))
      && (forall n :: Renames(cs, c, id, n) ==> t'[id] == t[id].(name := n, updatedAt := c.now))
      && (t'[id] != t[id] ==>
        Promotes(t, c, id) || SetsPassword(c, id, t'[id].hash) || Renames(cs, c, id, t'[id].name))
  {
    match c {
      case Register(_, _, _, _, _, _, _, _, _) =>
        RegisterRejects(cs, t, c);
        if CanRegister(cs, t, c) { RegisterStores(cs, t, c); }
      case Login(_, _, _) =>
      case SetRole(_, _, _, _) =>
      case SetName(_, _, _) =>
      case SetPassword(_, _, _, _, _) =>
    }
  }

  /** The refusals of the three use cases that change a stored record. A refused one changes no record at all. */
  lemma UpdateRejects(cs: Charset, t: Table, c: Command)
    requires Keyed(t) && (c.SetRole? || c.SetName? || c.SetPassword?)
    ensures var t', r := After(cs, t, c), Answer(cs, t, c);
      && t'.Keys == t.Keys && (r.Failed? ==> t' == t)
      && (c.SetRole? ==>
        && (r.Done? <==> c.targetId in t && Promotes(t, c, c.targetId)) && (r.Done? ==> r.user == t'[c.targetId])
        && (r == Failed(ErrUserNotFound) <==> c.actorId !in t || c.targetId !in t) && (r.Failed? ==>
          r.error in {ErrUserNotFound, ErrInsufficientPerms}))
      && (c.SetName? ==>
        && (r.Done? <==> c.id in t && NewName(cs, c.name).Some?) && (r.Done? ==> r.user == t'[c.id])
        && (r == Failed(ErrUserNotFound) <==> c.id !in t)
          && (r.Failed? ==> r.error in {ErrUserNotFound, ErrInvalidName}))
      && (c.SetPassword? ==>
        && (r.Done? <==> c.passwordOk && c.id in t && c.verified && c.hash.Some?) && (r.Done? ==> r.user == t'[c.id])
        && (r == Failed(ErrInvalidPassword) <==> !c.passwordOk)
        && (r == Failed(ErrUserNotFound) <==> c.passwordOk && c.id !in t)
        && (r == Failed(ErrInvalidCredentials) <==> c.passwordOk && c.id in t && !c.verified)
        && (r == Failed(ErrInternal) <==> c.passwordOk && c.id in t && c.verified && c.hash.None?))
  {
  }

  // ---- what every sequence of use cases keeps

  ghost predicate EmailsApart(t: Table) {
    forall id, id' :: id in t && id' in t && id != id' ==> t[id].email != t[id'].email
  }

  /** Records under their own identifiers, distinct e-mails, and an owner as soon as there is anybody. */
  ghost predicate Shape(t: Table) {
    && Keyed(t)
    && EmailsApart(t)
    && (t != map[] ==> HasOwner(t))
  }

  ghost predicate Kept(cs: Charset, t: Table) { Shape(t) && forall id :: id in t ==> WellKept(cs, t[id]) }

  lemma PutShape(t: Table, u: UserData)
    requires Shape(t)
    requires u.id in t ==> t[u.id].email == u.email
    requires u.id !in t ==> !HasEmail(t, u.email)
    requires u.role == Owner || exists id :: id in t && id != u.id && t[id].role == Owner
    ensures Shape(t[u.id := u])
  {
    var t' := t[u.id := u];
    if u.role == Owner {
      assert u.id in t' && t'[u.id].role == Owner;
    } else {
      var id :| id in t && id != u.id && t[id].role == Owner;
      assert id in t' && t'[id].role == Owner;
    }
  }

  lemma PutWell(cs: Charset, t: Table, u: UserData, t': Table)
    requires (forall id :: id in t ==> WellKept(cs, t[id])) && WellKept(cs, u) && t' == t[u.id := u]
    ensures forall id :: id in t' ==> WellKept(cs, t'[id])
  {
  }

  lemma PutKept(cs: Charset, t: Table, u: UserData)
    requires Kept(cs, t) && WellKept(cs, u)
    requires u.id in t ==> t[u.id].email == u.email
    requires u.id !in t ==> !HasEmail(t, u.email)
    requires u.role == Owner || exists id :: id in t && id != u.id && t[id].role == Owner
    ensures Kept(cs, t[u.id := u])
  {
    PutShape(t, u);
    PutWell(cs, t, u, t[u.id := u]);
  }

  lemma NewUserWell(cs: Charset, c: Command)
    requires Sane(cs) && c.Register? && NewEmail(cs, c.input).Some? && c.hash.Some?
    ensures var u := NewUser(cs, c.first, NewEmail(cs, c.input).value, c.hash.value, c.name, Owner, c.now);
      u.Some? ==>
        WellKept(cs, u.value) && u.value.id == c.first && u.value.role == Owner
        && u.value.email == NewEmail(cs, c.input).value
  {
    NewEmailIdempotent(cs, c.input);
    if NewName(cs, c.name).Some? {
      NewNameIdempotent(cs, c.name);
    }
  }

  lemma ClaimKept(cs: Charset, t: Table, candidate: UserData, second: Uuid, later: int)
    requires Kept(cs, t) && WellKept(cs, candidate) && candidate.role == Owner && !HasEmail(t, candidate.email)
    requires candidate.id !in t && second !in t
    ensures var u := ClaimedOrFallenBack(t, candidate, second, later); WellKept(cs, u) && Kept(cs, t[u.id := u])
  {
    PutKept(cs, t, ClaimedOrFallenBack(t, candidate, second, later));
  }

  lemma RegisterKept(cs: Charset, t: Table, c: Command)
    requires Sane(cs) && Kept(cs, t) && c.Register? && Fresh(t, c)
    ensures Kept(cs, AfterRegister(cs, t, c).0) && t.Keys <= AfterRegister(cs, t, c).0.Keys
  {
    var email := NewEmail(cs, c.input);
    if email.Some? && c.hash.Some? && !HasEmail(t, email.value) {
      NewUserWell(cs, c);
      var u := NewUser(cs, c.first, email.value, c.hash.value, c.name, Owner, c.now);
      if u.Some? {
        ClaimKept(cs, t, u.value, c.second, c.later);
      }
    }
  }

  lemma SetRoleKept(cs: Charset, t: Table, c: Command)
    requires Kept(cs, t) && c.SetRole?
    ensures Kept(cs, AfterSetRole(t, c).0) && t.Keys <= AfterSetRole(t, c).0.Keys
  {
    if AfterSetRole(t, c).1.Done? {
      assert t[c.actorId].role == Owner && c.actorId != c.targetId;
      assert WellKept(cs, t[c.targetId]);
      var u := t[c.targetId].(role := c.role, updatedAt := c.now);
      assert u.id == c.targetId && AfterSetRole(t, c).0 == t[u.id := u];
      PutKept(cs, t, u);
    }
  }

  lemma SetNameKept(cs: Charset, t: Table, c: Command)
    requires Kept(cs, t) && c.SetName?
    ensures Kept(cs, AfterSetName(cs, t, c).0) && t.Keys <= AfterSetName(cs, t, c).0.Keys
  {
    if c.id in t {
      var u := UpdateName(cs, t[c.id], c.name, c.now);
      if u.Some? {
        RenamedWell(cs, t[c.id], c.name, c.now);
        OwnUpdateKept(cs, t, u.value);
      }
    }
  }

  lemma SetPasswordKept(cs: Charset, t: Table, c: Command)
    requires Kept(cs, t) && c.SetPassword?
    ensures Kept(cs, AfterSetPassword(t, c).0) && t.Keys <= AfterSetPassword(t, c).0.Keys
  {
    if AfterSetPassword(t, c).1.Done? {
      assert WellKept(cs, t[c.id]);
      OwnUpdateKept(cs, t, t[c.id].(hash := c.hash.value, updatedAt := c.now));
    }
  }

  lemma StepKept(cs: Charset, t: Table, c: Command)
    requires Sane(cs) && Kept(cs, t) && Fresh(t, c)
    ensures Kept(cs, After(cs, t, c)) && t.Keys <= After(cs, t, c).Keys
  {
    match c {
      case Register(_, _, _, _, _, _, _, _, _) => RegisterKept(cs, t, c);
      case Login(_, _, _) =>
      case SetRole(_, _, _, _) => SetRoleKept(cs, t, c);
      case SetName(_, _, _) => SetNameKept(cs, t, c);
      case SetPassword(_, _, _, _, _) => SetPasswordKept(cs, t, c);
    }
  }

  /** Changing one's own record keeps the role; changing another's leaves the acting owner in place. */
  lemma OwnUpdateKept(cs: Charset, t: Table, u: UserData)
    requires Kept(cs, t) && WellKept(cs, u) && u.id in t && u.email == t[u.id].email && u.role == t[u.id].role
    ensures Kept(cs, t[u.id := u])
  {
    var owner :| owner in t && t[owner].role == Owner;
    PutKept(cs, t, u);
  }

  ghost predicate Legal(cs: Charset, t: Table, cmds: seq<Command>)
    decreases |cmds|
  {
    cmds == [] || (Fresh(t, cmds[0]) && Legal(cs, After(cs, t, cmds[0]), cmds[1..]))
  }

  function AfterAll(cs: Charset, t: Table, cmds: seq<Command>): Table
    decreases |cmds|
  {
    if cmds == [] then t else AfterAll(cs, After(cs, t, cmds[0]), cmds[1..])
  }

  /**
   * Every sequence of use cases from the empty repository, whatever errors occur on the way, leaves records under their
   * own identifiers, with distinct e-mails in normal form and legal names, and an owner if there is anybody.
   */
  lemma {:induction false} SequencesKept(cs: Charset, t: Table, cmds: seq<Command>)
    requires Sane(cs) && Kept(cs, t) && Legal(cs, t, cmds)
    ensures Kept(cs, AfterAll(cs, t, cmds))
    ensures t.Keys <= AfterAll(cs, t, cmds).Keys
    decreases |cmds|
  {
    if cmds != [] {
      StepKept(cs, t, cmds[0]);
      SequencesKept(cs, After(cs, t, cmds[0]), cmds[1..]);
    }
  }

  /** What of a record no use case changes. */
  predicate SameAccount(a: UserData, b: UserData) {
    a.id == b.id && a.email == b.email && a.active == b.active && a.createdAt == b.createdAt
  }

  /** One use case: the record is still there, and what gave it what it has now. */
  lemma StepCause(cs: Charset, t: Table, c: Command, t': Table, id: Uuid)
    requires Sane(cs) && Kept(cs, t) && Fresh(t, c) && id in t && t' == After(cs, t, c)
    ensures Kept(cs, t') && id in t' && SameAccount(t'[id], t[id]) && t[id].id == id
    ensures t'[id].hash != t[id].hash ==> SetsPassword(c, id, t'[id].hash)
    ensures t'[id].name != t[id].name ==> Renames(cs, c, id, t'[id].name)
    ensures t'[id].role != t[id].role ==> Promotes(t, c, id) && c.role == t'[id].role
  {
    StepKept(cs, t, c);
    RecordAfter(cs, t, c, id);
  }

  ghost predicate SetsPasswordIn(cmds: seq<Command>, id: Uuid, hash: string) {
    exists i :: 0 <= i < |cmds| && SetsPassword(cmds[i], id, hash)
  }

  ghost predicate RenamesIn(cs: Charset, cmds: seq<Command>, id: Uuid, name: string) {
    exists i :: 0 <= i < |cmds| && Renames(cs, cmds[i], id, name)
  }

  ghost predicate PromotesIn(cs: Charset, t: Table, cmds: seq<Command>, id: Uuid, role: Role) {
    exists i :: 0 <= i < |cmds| && Promotes(AfterAll(cs, t, cmds[..i]), cmds[i], id) && cmds[i].role == role
  }

  /** What happens in the rest of a sequence happens in the sequence. */
  lemma CauseLater(cs: Charset, cmds: seq<Command>, id: Uuid, hash: string, name: string)
    requires cmds != []
    ensures SetsPasswordIn(cmds[1..], id, hash) ==> SetsPasswordIn(cmds, id, hash)
    ensures RenamesIn(cs, cmds[1..], id, name) ==> RenamesIn(cs, cmds, id, name)
  {
    var rest := cmds[1..];
    if SetsPasswordIn(rest, id, hash) {
      var i :| 0 <= i < |rest| && SetsPassword(rest[i], id, hash);
      assert SetsPassword(cmds[i + 1], id, hash);
    }
    if RenamesIn(cs, rest, id, name) {
      var i :| 0 <= i < |rest| && Renames(cs, rest[i], id, name);
      assert Renames(cs, cmds[i + 1], id, name);
    }
  }

  lemma PromotedLater(cs: Charset, t: Table, cmds: seq<Command>, id: Uuid, role: Role, i: nat)
    requires cmds != [] && i < |cmds[1..]| && cmds[1..][i].SetRole? && cmds[1..][i].role == role
    requires Promotes(AfterAll(cs, After(cs, t, cmds[0]), cmds[1..][..i]), cmds[1..][i], id)
    ensures PromotesIn(cs, t, cmds, id, role)
  {
    assert cmds[..i + 1][0] == cmds[0] && cmds[..i + 1][1..] == cmds[1..][..i];
    assert AfterAll(cs, t, cmds[..i + 1]) == AfterAll(cs, After(cs, t, cmds[0]), cmds[1..][..i]);
    assert Promotes(AfterAll(cs, t, cmds[..i + 1]), cmds[i + 1], id);
  }

  lemma CauseNow(cs: Charset, t: Table, cmds: seq<Command>, id: Uuid, hash: string, name: string, role: Role)
    requires cmds != []
    ensures SetsPassword(cmds[0], id, hash) ==> SetsPasswordIn(cmds, id, hash)
    ensures Renames(cs, cmds[0], id, name) ==> RenamesIn(cs, cmds, id, name)
    ensures Promotes(t, cmds[0], id) && cmds[0].role == role ==> PromotesIn(cs, t, cmds, id, role)
  {
    assert AfterAll(cs, t, cmds[..0]) == t;
  }

  /** Where `u` differs from `was`, the sequence has a cause. */
  ghost predicate Caused(cs: Charset, t: Table, cmds: seq<Command>, was: UserData, u: UserData) {
    && (u.hash != was.hash ==> SetsPasswordIn(cmds, was.id, u.hash))
    && (u.name != was.name ==> RenamesIn(cs, cmds, was.id, u.name))
    && (u.role != was.role ==> PromotesIn(cs, t, cmds, was.id, u.role))
  }

  lemma CausedFrom(cs: Charset, t: Table, cmds: seq<Command>, was: UserData, next: UserData, u: UserData)
    requires cmds != [] && next.id == was.id && Caused(cs, After(cs, t, cmds[0]), cmds[1..], next, u)
    requires next.hash != was.hash ==> SetsPassword(cmds[0], was.id, next.hash)
    requires next.name != was.name ==> Renames(cs, cmds[0], was.id, next.name)
    requires next.role != was.role ==> Promotes(t, cmds[0], was.id) && cmds[0].role == next.role
    ensures Caused(cs, t, cmds, was, u)
  {
    var t1, rest := After(cs, t, cmds[0]), cmds[1..];
    CauseLater(cs, cmds, was.id, u.hash, u.name);
    if PromotesIn(cs, t1, rest, was.id, u.role) {
      var i :| 0 <= i < |rest| && Promotes(AfterAll(cs, t1, rest[..i]), rest[i], was.id) && rest[i].role == u.role;
      PromotedLater(cs, t, cmds, was.id, u.role, i);
    }
    CauseNow(cs, t, cmds, was.id, u.hash, u.name, u.role);
  }

  /**
   * Over any sequence, a stored record keeps its address, identifier, activity and creation time, and another hash,
   * name or role than before was set by a use case of the sequence: by the user with the right current password, by the
   * user, and by somebody else who was owner at that point.
   */
  lemma {:induction false} ChangesHaveACause(cs: Charset, t: Table, cmds: seq<Command>, id: Uuid)
    requires Sane(cs) && Kept(cs, t) && Legal(cs, t, cmds) && id in t
    ensures id in AfterAll(cs, t, cmds) && SameAccount(AfterAll(cs, t, cmds)[id], t[id])
    ensures Caused(cs, t, cmds, t[id], AfterAll(cs, t, cmds)[id])
    decreases |cmds|
  {
    if cmds != [] {
      var t1, rest := After(cs, t, cmds[0]), cmds[1..];
      StepCause(cs, t, cmds[0], t1, id);
      ChangesHaveACause(cs, t1, rest, id);
      CausedFrom(cs, t, cmds, t[id], t1[id], AfterAll(cs, t1, rest)[id]);
    }
  }

  /** Unlike the database, this repository lets an owner make a second one. */
  lemma SecondOwnerPossible(t: Table, actor: Uuid, target: Uuid, now: int)
    requires actor in t && target in t && t[actor].role == Owner && t[actor].id == actor && t[target].id == target
    requires actor != target
    ensures var t' := AfterSetRole(t, SetRole(actor, target, Owner, now)).0;
      actor in t' && target in t' && t'[actor].role == Owner && t'[target].role == Owner
  {
  }

  // ---- when there is a second owner

  ghost predicate SingleOwner(t: Table) {
    forall id, id' :: id in t && id' in t && t[id].role == Owner && t[id'].role == Owner ==> id == id'
  }

  /** The owner gives another user the owner's role. */
  predicate AppointsOwner(t: Table, c: Command) {
    c.SetRole? && c.role == Owner && c.actorId in t && c.targetId in t && t[c.actorId].role == Owner
      && c.actorId != c.targetId
  }

  /** A record with the owner's role may only take the place of the owner's, or come first. */
  lemma PutOwners(t: Table, u: UserData)
    requires SingleOwner(t) && (u.role == Owner ==> forall id :: id in t && t[id].role == Owner ==> id == u.id)
    ensures SingleOwner(t[u.id := u])
  {
  }

  lemma RegisterOwners(cs: Charset, t: Table, c: Command)
    requires c.Register? && SingleOwner(t)
    ensures SingleOwner(AfterRegister(cs, t, c).0)
  {
    var email := NewEmail(cs, c.input);
    if email.Some? && c.hash.Some? {
      var u := NewUser(cs, c.first, email.value, c.hash.value, c.name, Owner, c.now);
      if u.Some? {
        PutOwners(t, ClaimedOrFallenBack(t, u.value, c.second, c.later));
      }
    }
  }

  lemma SetRoleOwners(t: Table, c: Command)
    requires Keyed(t) && c.SetRole? && SingleOwner(t)
    ensures SingleOwner(AfterSetRole(t, c).0) <==> !AppointsOwner(t, c)
  {
    if AppointsOwner(t, c) {
      SecondOwnerPossible(t, c.actorId, c.targetId, c.now);
    } else if AfterSetRole(t, c).1.Done? {
      PutOwners(t, t[c.targetId].(role := c.role, updatedAt := c.now));
    }
  }

  lemma SetNameOwners(cs: Charset, t: Table, c: Command)
    requires Keyed(t) && c.SetName? && SingleOwner(t)
    ensures SingleOwner(AfterSetName(cs, t, c).0)
  {
    if c.id in t {
      var u := UpdateName(cs, t[c.id], c.name, c.now);
      if u.Some? { PutOwners(t, u.value); }
    }
  }

  lemma SetPasswordOwners(t: Table, c: Command)
    requires Keyed(t) && c.SetPassword? && SingleOwner(t)
    ensures SingleOwner(AfterSetPassword(t, c).0)
  {
    if AfterSetPassword(t, c).1.Done? {
      PutOwners(t, UpdatePassword(t[c.id], c.hash.value, c.now));
    }
  }

  /** A use case makes a second owner exactly when it appoints one. */
  lemma StepOwners(cs: Charset, t: Table, c: Command)
    requires Keyed(t) && SingleOwner(t)
    ensures SingleOwner(After(cs, t, c)) <==> !AppointsOwner(t, c)
  {
    match c {
      case Register(_, _, _, _, _, _, _, _, _) => RegisterOwners(cs, t, c);
      case Login(_, _, _) =>
      case SetRole(_, _, _, _) => SetRoleOwners(t, c);
      case SetName(_, _, _) => SetNameOwners(cs, t, c);
      case SetPassword(_, _, _, _, _) => SetPasswordOwners(t, c);
    }
  }

  /** No use case of the sequence, when its turn comes, appoints an owner. */
  predicate NeverAppoints(cs: Charset, t: Table, cmds: seq<Command>)
    decreases |cmds|
  {
    cmds == [] || (!AppointsOwner(t, cmds[0]) && NeverAppoints(cs, After(cs, t, cmds[0]), cmds[1..]))
  }

  ghost predicate AlwaysSingle(cs: Charset, t: Table, cmds: seq<Command>) {
    forall i :: 0 <= i <= |cmds| ==> SingleOwner(AfterAll(cs, t, cmds[..i]))
  }

  lemma AlwaysSingleStep(cs: Charset, t: Table, cmds: seq<Command>)
    requires cmds != []
    ensures AlwaysSingle(cs, t, cmds) <==> SingleOwner(t) && AlwaysSingle(cs, After(cs, t, cmds[0]), cmds[1..])
  {
    var rest, t' := cmds[1..], After(cs, t, cmds[0]);
    forall i | 0 <= i <= |rest| ensures AfterAll(cs, t, cmds[..i + 1]) == AfterAll(cs, t', rest[..i]) {
      assert cmds[..i + 1][0] == cmds[0] && cmds[..i + 1][1..] == rest[..i];
    }
    if AlwaysSingle(cs, t, cmds) {
      assert cmds[..0] == [];
      forall i | 0 <= i <= |rest| ensures SingleOwner(AfterAll(cs, t', rest[..i])) {
        assert SingleOwner(AfterAll(cs, t, cmds[..i + 1]));
      }
    }
    if SingleOwner(t) && AlwaysSingle(cs, t', rest) {
      forall i | 0 <= i <= |cmds| ensures SingleOwner(AfterAll(cs, t, cmds[..i])) {
        if i == 0 {
          assert cmds[..0] == [];
        } else {
          assert SingleOwner(AfterAll(cs, t', rest[..i - 1]));
        }
      }
    }
  }

  /**
   * Along every sequence of use cases there is at no point more than one owner, exactly if no use case of the sequence
   * is one in which the owner gives another user the owner's role.
   */
  lemma {:induction false} SingleOwnerIff(cs: Charset, t: Table, cmds: seq<Command>)
    requires Sane(cs) && Kept(cs, t) && SingleOwner(t) && Legal(cs, t, cmds)
    ensures AlwaysSingle(cs, t, cmds) <==> NeverAppoints(cs, t, cmds)
    decreases |cmds|
  {
    if cmds == [] {
      assert cmds[..0] == [];
    } else {
      AlwaysSingleStep(cs, t, cmds);
      StepOwners(cs, t, cmds[0]);
      StepKept(cs, t, cmds[0]);
      if !AppointsOwner(t, cmds[0]) {
        SingleOwnerIff(cs, After(cs, t, cmds[0]), cmds[1..]);
      } else {
        assert cmds[1..][..0] == [];
        assert AfterAll(cs, After(cs, t, cmds[0]), cmds[1..][..0]) == After(cs, t, cmds[0]);
      }
    }
  }

  /** From the empty repository: two users register, the first appoints the second, and there are two owners. */
  lemma SecondOwnerRun(cs: Charset, o: Uuid, m: Uuid, x: Uuid, eo: string, em: string, h: string, n: string)
    requires NormalEmail(cs, eo) && NormalEmail(cs, em) && eo != em && NormalName(cs, n) && o != m && m != x && o != x
    ensures var c1 := Register(eo, n, true, Some(h), o, x, 0, 0, true);
      var c2 := Register(em, n, true, Some(h), x, m, 0, 0, true);
      var cmds := [c1, c2, SetRole(o, m, Owner, 0)];
      && Legal(cs, map[], cmds)
      && var t := AfterAll(cs, map[], cmds); o in t && m in t && o != m && t[o].role == Owner && t[m].role == Owner
  {
    var c1 := Register(eo, n, true, Some(h), o, x, 0, 0, true);
    var c2 := Register(em, n, true, Some(h), x, m, 0, 0, true);
    var c3 := SetRole(o, m, Owner, 0);
    var t1 := map[o := UserData(o, eo, h, n, Owner, true, 0, 0)];
    var t2 := t1[m := UserData(m, em, h, n, Member, true, 0, 0)];
    assert After(cs, map[], c1) == t1;
    assert After(cs, t1, c2) == t2 by { assert t1[o].role == Owner && !HasEmail(t1, em); }
    RunThree(cs, map[], c1, t1, c2, t2, c3);
    SecondOwnerPossible(t2, o, m, 0);
  }

  /** With the addresses and names of one charset: a sequence without hypotheses. */
  lemma SecondOwnerHappens() returns (cmds: seq<Command>)
    ensures Sane(Ascii()) && Legal(Ascii(), map[], cmds) && !SingleOwner(AfterAll(Ascii(), map[], cmds))
  {
    AsciiIsSane();
    AsciiNormal('a');
    AsciiNormal('b');
    var o: Uuid, m: Uuid, x: Uuid := seq(16, _ => 1), seq(16, _ => 2), seq(16, _ => 3);
    assert o[0] != m[0] && m[0] != x[0] && o[0] != x[0];
    var eo, em := ['a'] + "@b.c", ['b'] + "@b.c";
    assert eo[0] != em[0];
    SecondOwnerRun(Ascii(), o, m, x, eo, em, "h", ['a']);
    cmds := [Register(eo, ['a'], true, Some("h"), o, x, 0, 0, true),
             Register(em, ['a'], true, Some("h"), x, m, 0, 0, true), SetRole(o, m, Owner, 0)];
  }

  lemma RunThree(cs: Charset, t: Table, c1: Command, t1: Table, c2: Command, t2: Table, c3: Command)
    requires Fresh(t, c1) && After(cs, t, c1) == t1 && Fresh(t1, c2) && After(cs, t1, c2) == t2 && Fresh(t2, c3)
    ensures Legal(cs, t, [c1, c2, c3]) && AfterAll(cs, t, [c1, c2, c3]) == After(cs, t2, c3)
  {
    var t3 := After(cs, t2, c3);
    assert [c3][1..] == [] && [c2, c3][1..] == [c3] && [c1, c2, c3][1..] == [c2, c3];
    assert Legal(cs, t2, [c3]) && AfterAll(cs, t2, [c3]) == AfterAll(cs, t3, []) == t3;
    assert Legal(cs, t1, [c2, c3]) && AfterAll(cs, t1, [c2, c3]) == t3;
  }

  // ---- the objects

  class User {
    const id: Uuid
    const email: string
    const createdAt: int
    var passwordHash: string
    var name: string
    var role: Role
    var isActive: bool
    var updatedAt: int

    ghost function Data(): UserData
      reads this
    {
      UserData(id, email, passwordHash, name, role, isActive, createdAt, updatedAt)
    }

    constructor (d: UserData)
      ensures Data() == d
    {
      id, email, createdAt := d.id, d.email, d.createdAt;
      passwordHash, name, role, isActive, updatedAt := d.hash, d.name, d.role, d.active, d.updatedAt;
    }

    method UpdateName(cs: Charset, name: string, now: int) returns (ok: bool)
      modifies this
      ensures match Users.UpdateName(cs, old(Data()), name, now)
        case None => !ok && Data() == old(Data())
        case Some(u) => ok && Data() == u
    {
      var trimmed := NewName(cs, name);
      if trimmed == None {
        return false;
      }
      this.name := trimmed.value;
      updatedAt := now;
      ok := true;
    }

    method UpdatePassword(hash: string, now: int)
      modifies this
      ensures Data() == Users.UpdatePassword(old(Data()), hash, now)
    {
      passwordHash := hash;
      updatedAt := now;
    }

    method Record() returns (d: UserData)
      ensures d == Data()
    {
      d := UserData(id, email, passwordHash, name, role, isActive, createdAt, updatedAt);
    }

    /** `actor` may be this very object. */
    method ChangeRole(newRole: Role, actor: User, now: int) returns (ok: bool)
      modifies this
      ensures match Users.ChangeRole(old(Data()), newRole, old(actor.Data()), now)
        case None => !ok && Data() == old(Data())
        case Some(u) => ok && Data() == u
    {
      if actor.role != Owner || actor.id == id {
        return false;
      }
      role := newRole;
      updatedAt := now;
      ok := true;
    }
  }

  class UserRepository {
    var store: map<Uuid, User>

    /** Each object is stored under its own identifier; hence no object is stored twice. */
    ghost predicate Valid()
      reads this
    {
      forall id :: id in store ==> store[id].id == id
    }

    ghost function View(): Table
      reads this, store.Values
    {
      map id | id in store :: store[id].Data()
    }

    constructor ()
      ensures Valid() && View() == map[]
    {
      store := map[];
    }

    method FindByID(id: Uuid) returns (u: User?)
      ensures if id in store then u == store[id] else u == null
    {
      u := if id in store then store[id] else null;
    }

    /** The map is visited in an arbitrary order; with distinct e-mails the answer does not depend on it. */
    method FindByEmail(email: string) returns (u: User?)
      ensures u == null ==> !HasEmail(View(), email)
      ensures u != null ==> u in store.Values && u.email == email
      ensures u != null && Valid() ==> u.id in store && store[u.id] == u
      ensures u != null && Valid() && EmailsApart(View()) ==>
        forall id :: id in store && store[id].email == email ==> id == u.id
    {
      var todo := store.Keys;
      while todo != {}
        invariant todo <= store.Keys
        invariant forall id :: id in store && id !in todo ==> store[id].email != email
      {
        var id :| id in todo;
        if store[id].email == email {
          assert View()[id].email == email;
          forall id' | id' in store && store[id'].email == email && Valid() && EmailsApart(View()) ensures id' == id {
            assert View()[id'].email == email;
          }
          return store[id];
        }
        todo := todo - {id};
      }
      return null;
    }

    method Save(u: User)
      requires Valid()
      modifies this
      ensures Valid() && store == old(store)[u.id := u]
      ensures View() == old(View())[u.id := u.Data()]
    {
      store := store[u.id := u];
    }

    method SaveFirstOwner(u: User) returns (claimed: bool)
      requires Valid()
      modifies this
      ensures Valid() && claimed == !HasOwner(old(View()))
      ensures store == if claimed then old(store)[u.id := u] else old(store)
      ensures View() == if claimed then old(View())[u.id := u.Data()] else old(View())
    {
      var todo := store.Keys;
      while todo != {}
        invariant todo <= store.Keys && store == old(store)
        invariant forall id :: id in store && id !in todo ==> store[id].role != Owner
      {
        var id :| id in todo;
        if store[id].role == Owner {
          assert id in View() && View()[id].role == Owner;
          return false;
        }
        todo := todo - {id};
      }
      store := store[u.id := u];
      claimed := true;
    }
  }

  // ---- listing

  /** The records behind a slice of objects. */
  ghost function Records(users: seq<User>): (r: seq<UserData>)
    reads users
    ensures |r| == |users| && forall i :: 0 <= i < |r| ==> r[i] == users[i].Data()
  {
    seq(|users|, i requires 0 <= i < |users| reads users => users[i].Data())
  }

  /** The text comparison decides as the byte order of the database would. */
  method ComesBefore(a: User, b: User) returns (before: bool)
    ensures before == ByBytes(a.Data(), b.Data())
  {
    SameOrder(a.Data(), b.Data());
    if a.createdAt == b.createdAt {
      before := TextLess(Text(a.id), Text(b.id));
    } else {
      before := a.createdAt < b.createdAt;
    }
  }

  ghost predicate InOrder(users: seq<User>)
    reads users
  {
    Increasing(Records(users))
  }

  /** Where `u` goes among objects already in order, and the slice with it there. */
  method InsertUser(sorted: seq<User>, u: User) returns (r: seq<User>)
    requires InOrder(sorted) && forall i :: 0 <= i < |sorted| ==> sorted[i].id != u.id
    ensures multiset(r) == multiset(sorted) + multiset{u} && InOrder(r)
  {
    var k := |sorted|;
    while k > 0
      invariant 0 <= k <= |sorted|
      invariant forall i :: k <= i < |sorted| ==> ByBytes(u.Data(), sorted[i].Data())
    {
      var before := ComesBefore(sorted[k - 1], u);
      if before {
        break;
      }
      TotalOrder(sorted[k - 1].Data(), u.Data());
      k := k - 1;
    }
    InsertInOrder(sorted, k, u);
    r := sorted[..k] + [u] + sorted[k..];
    InsertMultiset(sorted, k, u);
  }

  /** `sort.Slice` with the comparison above, as an insertion sort. */
  method SortUsers(users: seq<User>) returns (sorted: seq<User>)
    requires forall i, j :: 0 <= i < j < |users| ==> users[i].id != users[j].id
    ensures multiset(sorted) == multiset(users) && InOrder(sorted)
  {
    sorted := [];
    for n := 0 to |users|
      invariant multiset(sorted) == multiset(users[..n]) && InOrder(sorted)
    {
      NewIdentifier(users, n, sorted);
      sorted := InsertUser(sorted, users[n]);
      assert users[..n + 1] == users[..n] + [users[n]];
    }
    assert users[..|users|] == users;
  }

  lemma NewIdentifier(users: seq<User>, n: nat, sorted: seq<User>)
    requires n < |users| && multiset(sorted) == multiset(users[..n])
    requires forall i, j :: 0 <= i < j < |users| ==> users[i].id != users[j].id
    ensures forall i :: 0 <= i < |sorted| ==> sorted[i].id != users[n].id
  {
    forall i | 0 <= i < |sorted| ensures sorted[i].id != users[n].id {
      assert sorted[i] in multiset(users[..n]);
      var j :| 0 <= j < n && users[..n][j] == sorted[i];
    }
  }

  lemma InsertMultiset(sorted: seq<User>, k: nat, u: User)
    requires k <= |sorted|
    ensures multiset(sorted[..k] + [u] + sorted[k..]) == multiset(sorted) + multiset{u}
  {
    assert sorted == sorted[..k] + sorted[k..];
  }

  lemma InsertInOrder(sorted: seq<User>, k: nat, u: User)
    requires InOrder(sorted) && k <= |sorted|
    requires k > 0 ==> ByBytes(sorted[k - 1].Data(), u.Data())
    requires forall i :: k <= i < |sorted| ==> ByBytes(u.Data(), sorted[i].Data())
    ensures InOrder(sorted[..k] + [u] + sorted[k..])
  {
    var s, s' := Records(sorted), Records(sorted[..k] + [u] + sorted[k..]);
    forall i | 0 <= i < k ensures ByBytes(s[i], u.Data()) {
      if i < k - 1 {
        TransitiveOrder(s[i], s[k - 1], u.Data());
      }
    }
    forall i, j | 0 <= i < j < |s'| ensures ByBytes(s'[i], s'[j]) {
      assert i != k ==> s'[i] == s[if i < k then i else i - 1];
      assert j != k ==> s'[j] == s[if j < k then j else j - 1];
    }
  }

  /** Sorting the stored objects lists the table. */
  lemma SortedIsListing(repo: UserRepository, users: seq<User>, sorted: seq<User>)
    requires repo.Valid() && |users| == |repo.store| && (forall u :: u in users <==> u in repo.store.Values)
    requires multiset(sorted) == multiset(users) && InOrder(sorted)
    ensures IsListing(Records(sorted), repo.View())
  {
    var rows, t := Records(sorted), repo.View();
    assert |rows| == |sorted| == |multiset(sorted)| == |users|;
    assert t.Keys == repo.store.Keys;
    assert |t| == |t.Keys| == |repo.store.Keys| == |repo.store|;
    forall d ensures d in rows <==> d.id in t && t[d.id] == d {
      if d in rows {
        var i :| 0 <= i < |rows| && rows[i] == d;
        assert sorted[i] in multiset(users);
        assert sorted[i] in repo.store.Values;
      }
      if d.id in t && t[d.id] == d {
        var u := repo.store[d.id];
        assert u in users && u in multiset(sorted);
        var i :| 0 <= i < |sorted| && sorted[i] == u;
        assert rows[i] == d;
      }
    }
  }

  lemma SortedIsTheListing(repo: UserRepository, users: seq<User>, sorted: seq<User>)
    requires repo.Valid() && |users| == |repo.store| && (forall u :: u in users <==> u in repo.store.Values)
    requires multiset(sorted) == multiset(users) && InOrder(sorted)
    ensures HasListing(repo.View()) && Records(sorted) == ListingOf(repo.View())
  {
    SortedIsListing(repo, users, sorted);
    ListingIsUnique(Records(sorted), ListingOf(repo.View()), repo.View());
  }

  lemma RecordsOfSlice(users: seq<User>, offset: int, limit: int)
    requires 0 <= offset && 0 <= limit
    ensures Records(Slice(users, offset, limit)) == Slice(Records(users), offset, limit)
  {
  }

  method CutPage(users: seq<User>, offset: int, limit: int) returns (page: seq<User>)
    requires 0 <= offset && 0 <= limit
    ensures page == Slice(users, offset, limit)
  {
    var total := |users|;
    var start := offset;
    if start > total {
      start := total;
    }
    var end := start + limit;
    if end > total {
      end := total;
    }
    page := users[start..end];
  }

  /** The stored objects, in the arbitrary order the map is visited in. */
  method CollectUsers(repo: UserRepository) returns (users: seq<User>)
    requires repo.Valid()
    ensures |users| == |repo.store| && forall u :: u in users <==> u in repo.store.Values
    ensures forall i, j :: 0 <= i < j < |users| ==> users[i].id != users[j].id
  {
    users := [];
    var todo := repo.store.Keys;
    while todo != {}
      invariant todo <= repo.store.Keys && |users| == |repo.store| - |todo|
      invariant forall u :: u in users <==> u.id in repo.store && u.id !in todo && repo.store[u.id] == u
      invariant forall i, j :: 0 <= i < j < |users| ==> users[i].id != users[j].id
    {
      var id :| id in todo;
      forall i | 0 <= i < |users| ensures users[i].id != id { assert users[i] in users; }
      users := users + [repo.store[id]];
      todo := todo - {id};
    }
    forall u ensures u in users <==> u in repo.store.Values {
      if u in repo.store.Values {
        var id :| id in repo.store && repo.store[id] == u;
      }
    }
  }

  /**
   * The page of the ordered table, whatever order the map is visited in; all indices are in range for every offset and
   * limit that are not negative.
   */
  method FindPaginated(repo: UserRepository, offset: int, limit: int) returns (page: seq<User>, total: int)
    requires repo.Valid() && 0 <= offset && 0 <= limit
    ensures HasListing(repo.View()) && total == |repo.View()|
    ensures Records(page) == Slice(ListingOf(repo.View()), offset, limit)
  {
    var users := CollectUsers(repo);
    var sorted := SortUsers(users);
    SortedIsTheListing(repo, users, sorted);
    page := CutPage(sorted, offset, limit);
    total := |sorted|;
    RecordsOfSlice(sorted, offset, limit);
  }

  // ---- the use cases

  /** The object under one identifier is under no other, so changing it changes one record. */
  lemma StoredOnce(repo: UserRepository, id: Uuid)
    requires repo.Valid() && id in repo.store
    ensures forall id' :: id' in repo.store && id' != id ==> repo.store[id'] != repo.store[id]
  {
  }

  /** Try to claim ownership; if somebody has it, register a second entity as a plain user. */
  method ClaimOrFallBack(cs: Charset, repo: UserRepository, c: Command, email: string, candidate: UserData)
      returns (user: User)
    requires c.Register? && c.hash.Some? && repo.Valid() && Fresh(repo.View(), c)
    requires NewUser(cs, c.first, email, c.hash.value, c.name, Owner, c.now) == Some(candidate)
    modifies repo
    ensures repo.Valid() && fresh(user)
      && user.Data() == ClaimedOrFallenBack(old(repo.View()), candidate, c.second, c.later)
    ensures repo.View() == old(repo.View())[user.id := user.Data()]
    ensures repo.store == old(repo.store)[user.id := user]
  {
    user := new User(candidate);
    var claimed := repo.SaveFirstOwner(user);
    if !claimed {
      var second := NewUser(cs, c.second, email, c.hash.value, c.name, Member, c.later);
      user := new User(second.value);
      repo.Save(user);
    }
  }

  method RegisterUser(cs: Charset, repo: UserRepository, c: Command) returns (r: Outcome)
    requires c.Register? && repo.Valid() && Fresh(repo.View(), c)
    modifies repo
    ensures repo.Valid() && (repo.View(), r) == AfterRegister(cs, old(repo.View()), c)
    ensures fresh(repo.store.Values - old(repo.store.Values))
  {
    if !c.passwordOk {
      return Failed(ErrInvalidPassword);
    }
    var email := NewEmail(cs, c.input);
    if email == None {
      return Failed(ErrInvalidEmail);
    }
    var existing := repo.FindByEmail(email.value);
    if existing != null {
      assert existing.id in repo.View() && repo.View()[existing.id].email == email.value;
      return Failed(ErrEmailAlreadyExists);
    }
    if c.hash == None {
      return Failed(ErrInternal);
    }
    var candidate := NewUser(cs, c.first, email.value, c.hash.value, c.name, Owner, c.now);
    if candidate == None {
      return Failed(ErrInvalidName);
    }
    var user := ClaimOrFallBack(cs, repo, c, email.value, candidate.value);
    if !c.pairOk {
      return Failed(ErrServiceUnavailable);
    }
    var record := user.Record();
    r := Done(record);
  }

  /** Saving an object the repository handed out: it is there already, with its changes. */
  method SaveStored(repo: UserRepository, u: User)
    requires repo.Valid() && u.id in repo.store && repo.store[u.id] == u
    modifies repo
    ensures repo.store == old(repo.store) && repo.View() == old(repo.View())
  {
    repo.Save(u);
    assert repo.store == old(repo.store);
  }

  /** The guarded mutation of a stored object, seen in the table of records. */
  method ChangeStoredRole(repo: UserRepository, target: User, role: Role, actor: User, now: int) returns (ok: bool)
    requires repo.Valid() && target.id in repo.store && repo.store[target.id] == target
    modifies target
    ensures match Users.ChangeRole(old(target.Data()), role, old(actor.Data()), now)
      case None => !ok && repo.View() == old(repo.View())
      case Some(u) => ok && target.Data() == u && repo.View() == old(repo.View())[target.id := u]
  {
    StoredOnce(repo, target.id);
    ok := target.ChangeRole(role, actor, now);
  }

  method ChangeUserRole(repo: UserRepository, c: Command) returns (r: Outcome)
    requires c.SetRole? && repo.Valid()
    modifies repo, repo.store.Values
    ensures repo.Valid() && repo.store == old(repo.store) && (repo.View(), r) == AfterSetRole(old(repo.View()), c)
  {
    var actor := repo.FindByID(c.actorId);
    if actor == null {
      return Failed(ErrUserNotFound);
    }
    var target := repo.FindByID(c.targetId);
    if target == null {
      return Failed(ErrUserNotFound);
    }
    var ok := ChangeStoredRole(repo, target, c.role, actor, c.now);
    if !ok {
      return Failed(ErrInsufficientPerms);
    }
    SaveStored(repo, target);
    var record := target.Record();
    r := Done(record);
  }

  method UpdateProfile(cs: Charset, repo: UserRepository, c: Command) returns (r: Outcome)
    requires c.SetName? && repo.Valid()
    modifies repo, repo.store.Values
    ensures repo.Valid() && repo.store == old(repo.store) && (repo.View(), r) == AfterSetName(cs, old(repo.View()), c)
  {
    var user := repo.FindByID(c.id);
    if user == null {
      return Failed(ErrUserNotFound);
    }
    StoredOnce(repo, c.id);
    var ok := user.UpdateName(cs, c.name, c.now);
    if !ok {
      assert repo.View() == old(repo.View());
      return Failed(ErrInvalidName);
    }
    assert repo.View() == old(repo.View())[c.id := user.Data()];
    SaveStored(repo, user);
    var record := user.Record();
    r := Done(record);
  }

  method ChangePassword(repo: UserRepository, c: Command) returns (r: Outcome)
    requires c.SetPassword? && repo.Valid()
    modifies repo, repo.store.Values
    ensures repo.Valid() && repo.store == old(repo.store) && (repo.View(), r) == AfterSetPassword(old(repo.View()), c)
  {
    if !c.passwordOk {
      return Failed(ErrInvalidPassword);
    }
    var user := repo.FindByID(c.id);
    if user == null {
      return Failed(ErrUserNotFound);
    }
    if !c.verified {
      return Failed(ErrInvalidCredentials);
    }
    if c.hash == None {
      return Failed(ErrInternal);
    }
    StoredOnce(repo, c.id);
    user.UpdatePassword(c.hash.value, c.now);
    assert repo.View() == old(repo.View())[c.id := user.Data()];
    SaveStored(repo, user);
    var record := user.Record();
    r := Done(record);
  }

  /**
   * For a malformed address and one nobody has, invalid credentials. Otherwise the record with that address decides: an
   * inactive account is told so, then a wrong password, then a token service that does not answer.
   */
  method LoginUser(cs: Charset, repo: UserRepository, c: Command) returns (r: Outcome)
    requires c.Login? && repo.Valid()
    ensures var t, email := repo.View(), NewEmail(cs, c.input);
      if email.None? || !HasEmail(t, email.value) then r == Failed(ErrInvalidCredentials)
      else
        exists id :: id in t && t[id].email == email.value && r == LoginOutcome(t[id], c)
          && (r.Done? <==> t[id].active && c.verified && c.pairOk) && (r.Done? ==> r.user == t[id])
          && (r == Failed(ErrAccountInactive) <==> !t[id].active)
          && (r == Failed(ErrInvalidCredentials) <==> t[id].active && !c.verified)
          && (r == Failed(ErrServiceUnavailable) <==> t[id].active && c.verified && !c.pairOk)
  {
    var email := NewEmail(cs, c.input);
    if email == None {
      return Failed(ErrInvalidCredentials);
    }
    var user := repo.FindByEmail(email.value);
    if user == null {
      return Failed(ErrInvalidCredentials);
    }
    assert user.id in repo.View() && repo.View()[user.id] == user.Data();
    if !user.isActive {
      return Failed(ErrAccountInactive);
    }
    if !c.verified {
      return Failed(ErrInvalidCredentials);
    }
    if !c.pairOk {
      return Failed(ErrServiceUnavailable);
    }
    var record := user.Record();
    r := Done(record);
  }

  // ---- sequences of use cases on the objects

  /** What a sequence of use cases answers. */
  ghost function Answers(cs: Charset, t: Table, cmds: seq<Command>): seq<Outcome>
    decreases |cmds|
  {
    if cmds == [] then [] else [Answer(cs, t, cmds[0])] + Answers(cs, After(cs, t, cmds[0]), cmds[1..])
  }

  lemma LoginAnswer(cs: Charset, t: Table, c: Command, id: Uuid)
    requires c.Login? && EmailsApart(t) && NewEmail(cs, c.input).Some?
    requires id in t && t[id].email == NewEmail(cs, c.input).value
    ensures AfterLogin(cs, t, c) == LoginOutcome(t[id], c)
  {
  }

  /** One use case. Every object it stores anew is fresh. */
  method RunCommand(cs: Charset, repo: UserRepository, c: Command) returns (r: Outcome)
    requires repo.Valid() && Fresh(repo.View(), c)
    modifies repo, repo.store.Values
    ensures repo.Valid() && repo.View() == After(cs, old(repo.View()), c)
    ensures EmailsApart(old(repo.View())) ==> r == Answer(cs, old(repo.View()), c)
    ensures fresh(repo.store.Values - old(repo.store.Values))
  {
    match c {
      case Register(_, _, _, _, _, _, _, _, _) => r := RegisterUser(cs, repo, c);
      case Login(_, _, _) =>
        r := LoginUser(cs, repo, c);
        ghost var t, email := repo.View(), NewEmail(cs, c.input);
        if EmailsApart(t) && email.Some? && HasEmail(t, email.value) {
          ghost var id :| id in t && t[id].email == email.value && r == LoginOutcome(t[id], c);
          LoginAnswer(cs, t, c, id);
        }
      case SetRole(_, _, _, _) => r := ChangeUserRole(repo, c);
      case SetName(_, _, _) => r := UpdateProfile(cs, repo, c);
      case SetPassword(_, _, _, _, _) => r := ChangePassword(repo, c);
    }
  }

  /** Any sequence, whatever objects the repository has handed out on the way: the table and every answer. */
  method RunCommands(cs: Charset, repo: UserRepository, cmds: seq<Command>) returns (r: seq<Outcome>)
    requires repo.Valid() && Legal(cs, repo.View(), cmds)
    modifies repo, repo.store.Values
    ensures repo.Valid() && repo.View() == AfterAll(cs, old(repo.View()), cmds) && |r| == |cmds|
    ensures Sane(cs) && Kept(cs, old(repo.View())) ==> r == Answers(cs, old(repo.View()), cmds)
    decreases |cmds|
  {
    if cmds == [] {
      return [];
    }
    ghost var t := repo.View();
    if Sane(cs) && Kept(cs, t) {
      StepKept(cs, t, cmds[0]);
    }
    var first := RunCommand(cs, repo, cmds[0]);
    var rest := RunCommands(cs, repo, cmds[1..]);
    r := [first] + rest;
  }
}
