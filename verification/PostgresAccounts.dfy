/**
 * The users table of internal/infrastructure/persistence/postgres and the use cases that write it, as a machine: each
 * caller reads copies and writes them back later, and any number of callers interleave between statements.
 */
module PostgresAccounts {
  import opened Common
  import opened Uuids
  import opened NormalForms
  import opened Users

  // ---- statements

  /** What a TIMESTAMPTZ column keeps of a time: whole microseconds. */
  function Micros(t: int): int { t - t % 1000 }

  function Row(u: UserData): UserData { u.(createdAt := Micros(u.createdAt), updatedAt := Micros(u.updatedAt)) }

  /** Some other row has the e-mail, or is the owner when `u` would be: one of the two unique indexes objects. */
  predicate Conflicts(t: Table, u: UserData) {
    exists id :: id in t && id != u.id && (t[id].email == u.email || (t[id].role == Owner && u.role == Owner))
  }

  /** The upsert of `Save`; the creation time of an existing row stays. None is an error, with the table unchanged. */
  function Save(t: Table, u: UserData): Option<Table> {
    if Conflicts(t, u) then None
    else Some(t[u.id := if u.id in t then Row(u).(createdAt := t[u.id].createdAt) else Row(u)])
  }

  /** The insert of `SaveFirstOwner`: the row, or None when any unique constraint objects. */
  function SaveFirstOwner(t: Table, u: UserData): Option<Table> {
    var owner := u.(role := Owner);
    if u.id in t || Conflicts(t, owner) then None else Some(t[u.id := Row(owner)])
  }

  /** `scanUser`: a row becomes a record only through `NewEmail`. */
  function ScanUser(cs: Charset, row: UserData): Option<UserData> {
    match NewEmail(cs, row.email)
    case None => None
    case Some(e) => Some(row.(email := e))
  }

  // ---- callers

  datatype Caller =
    | Registering(email: string, hash: string, name: string)   // no account had the e-mail
    | FallingBack(email: string, hash: string, name: string)   // SaveFirstOwner said false
    | Holding(user: UserData)                                  // update-profile, change-password: has read the user
    | ActorRead(actor: UserData)                               // change-role: has read the actor
    | BothRead(actor: UserData, target: UserData)

  datatype State = State(table: Table, callers: map<nat, Caller>)

  datatype Step =
    | FindByEmail(c: nat, email: string, hash: string, name: string)
    | ClaimOwner(c: nat, id: Uuid, now: int)
    | SaveFallback(c: nat, id: Uuid, now: int)
    | FindByID(c: nat, id: Uuid)
    | SaveName(c: nat, name: string, now: int)
    | SavePassword(c: nat, hash: string, now: int)
    | FindActor(c: nat, id: Uuid)
    | FindTarget(c: nat, id: Uuid)
    | SaveRole(c: nat, role: Role, now: int)
    | Leave(c: nat)

  /** A step of a caller that is where the step starts; drawn identifiers are fresh. */
  predicate Enabled(cs: Charset, s: State, e: Step) {
    match e
    case FindByEmail(c, _, _, _) => c !in s.callers
    case ClaimOwner(c, id, _) => c in s.callers && s.callers[c].Registering? && id !in s.table
    case SaveFallback(c, id, _) => c in s.callers && s.callers[c].FallingBack? && id !in s.table
    case FindByID(c, _) => c !in s.callers
    case SaveName(c, _, _) => c in s.callers && s.callers[c].Holding?
    case SavePassword(c, _, _) => c in s.callers && s.callers[c].Holding?
    case FindActor(c, _) => c !in s.callers
    case FindTarget(c, _) => c in s.callers && s.callers[c].ActorRead?
    case SaveRole(c, _, _) => c in s.callers && s.callers[c].BothRead?
    case Leave(c) => c in s.callers
  }

  function Found(cs: Charset, t: Table, id: Uuid): Option<UserData> { if id in t then ScanUser(cs, t[id]) else None }

  /** The caller's use case is over; its last write took effect if there was one and no constraint objected. */
  function Finish(s: State, c: nat, write: Option<UserData>): State {
    var table := match write
      case None => s.table
      case Some(u) => (match Save(s.table, u) case Some(t) => t case None => s.table);
    State(table, s.callers - {c})
  }

  function Apply(cs: Charset, s: State, e: Step): State
    requires Enabled(cs, s, e)
  {
    match e
    case FindByEmail(c, input, hash, name) =>
      (match NewEmail(cs, input)
       case None => s
       case Some(email) =>
         if HasEmail(s.table, email) then s else s.(callers := s.callers[c := Registering(email, hash, name)]))
    case ClaimOwner(c, id, now) =>
      var r := s.callers[c];
      (match NewUser(cs, id, r.email, r.hash, r.name, Owner, now)
       case None => Finish(s, c, None)
       case Some(candidate) =>
         (match SaveFirstOwner(s.table, candidate)
          case Some(t) => State(t, s.callers - {c})
          case None => s.(callers := s.callers[c := FallingBack(r.email, r.hash, r.name)])))
    case SaveFallback(c, id, now) =>
      var r := s.callers[c];
      Finish(s, c, NewUser(cs, id, r.email, r.hash, r.name, Member, now))
    case FindByID(c, id) =>
      (match Found(cs, s.table, id)
       case None => s
       case Some(u) => s.(callers := s.callers[c := Holding(u)]))
    case SaveName(c, name, now) => Finish(s, c, UpdateName(cs, s.callers[c].user, name, now))
    case SavePassword(c, hash, now) => Finish(s, c, Some(UpdatePassword(s.callers[c].user, hash, now)))
    case FindActor(c, id) =>
      (match Found(cs, s.table, id)
       case None => s
       case Some(u) => s.(callers := s.callers[c := ActorRead(u)]))
    case FindTarget(c, id) =>
      (match Found(cs, s.table, id)
       case None => Finish(s, c, None)
       case Some(u) => s.(callers := s.callers[c := BothRead(s.callers[c].actor, u)]))
    case SaveRole(c, role, now) =>
      Finish(s, c, ChangeRole(s.callers[c].target, role, s.callers[c].actor, now))
    case Leave(c) => Finish(s, c, None)
  }

  /** A run: the states it goes through, joined by its steps. */
  predicate IsRun(cs: Charset, trace: seq<State>, es: seq<Step>) {
    |trace| == |es| + 1
    && forall i :: 0 <= i < |es| ==> Enabled(cs, trace[i], es[i]) && trace[i + 1] == Apply(cs, trace[i], es[i])
  }

  const START := State(map[], map[])

  // ---- the invariant

  function Owners(t: Table): set<Uuid> { set id | id in t && t[id].role == Owner }

  /** Rows are stored under their own identifiers, e-mails differ, and one row is the owner's. */
  ghost predicate Shape(t: Table) {
    && Keyed(t)
    && (forall id, id' :: id in t && id' in t && id != id' ==> RowsApart(t, id, id'))
    && (t != map[] ==> exists id :: id in t && t[id].role == Owner)
  }

  ghost predicate RowsApart(t: Table, id: Uuid, id': Uuid)
    requires id in t && id' in t
  {
    t[id].email != t[id'].email && !(t[id].role == Owner && t[id'].role == Owner)
  }

  /** A record as the database holds it. */
  ghost predicate Stored(cs: Charset, u: UserData) { WellKept(cs, u) && Row(u) == u }

  ghost predicate TableKept(cs: Charset, t: Table) { Shape(t) && forall id :: id in t ==> Stored(cs, t[id]) }

  /** A copy, however stale, agrees with its row on everything that identifies the row, and on who the owner is. */
  ghost predicate CopyOf(t: Table, u: UserData) {
    && u.id in t && u.email == t[u.id].email && u.createdAt == t[u.id].createdAt
    && (u.role == Owner <==> t[u.id].role == Owner)
  }

  ghost predicate CopyKept(cs: Charset, t: Table, u: UserData) { CopyOf(t, u) && Stored(cs, u) }

  ghost predicate CallerKept(cs: Charset, t: Table, c: Caller) {
    match c
    case Registering(email, _, _) => NormalEmail(cs, email)
    case FallingBack(email, _, _) => NormalEmail(cs, email) && t != map[]
    case Holding(u) => CopyKept(cs, t, u)
    case ActorRead(a) => CopyKept(cs, t, a)
    case BothRead(a, u) => CopyKept(cs, t, a) && CopyKept(cs, t, u)
  }

  ghost predicate Inv(cs: Charset, s: State) {
    TableKept(cs, s.table) && forall c :: c in s.callers ==> CallerKept(cs, s.table, s.callers[c])
  }

  /** A row that no later write can make, or make not, the owner; and that keeps its e-mail and creation time. */
  ghost predicate Continues(t: Table, t': Table) {
    forall id :: id in t ==>
      id in t' && t'[id].email == t[id].email && t'[id].createdAt == t[id].createdAt
      && (t'[id].role == Owner <==> t[id].role == Owner)
  }

  lemma CallerContinues(cs: Charset, t: Table, t': Table, c: Caller)
    requires Continues(t, t') && CallerKept(cs, t, c)
    ensures CallerKept(cs, t', c)
  {
    if c.FallingBack? {
      var id :| id in t;
      assert id in t';
    }
  }

  lemma MicrosTwice(t: int)
    ensures Micros(Micros(t)) == Micros(t)
  {
    assert t - t % 1000 == 1000 * (t / 1000);
  }

  /** Putting one row into a table. */
  lemma PutShape(t: Table, r: UserData, owner: Uuid)
    requires Shape(t)
    requires forall id :: id in t && id != r.id ==> t[id].email != r.email && !(t[id].role == Owner && r.role == Owner)
    requires owner in t[r.id := r] && t[r.id := r][owner].role == Owner
    ensures Shape(t[r.id := r])
  {
    var t' := t[r.id := r];
    forall id, id' | id in t' && id' in t' && id != id' ensures RowsApart(t', id, id') {
      assert id in t && id' in t ==> RowsApart(t, id, id');
    }
  }

  lemma RowStored(cs: Charset, u: UserData, createdAt: int)
    requires WellKept(cs, u) && Micros(createdAt) == createdAt
    ensures Stored(cs, Row(u)) && Stored(cs, Row(u).(createdAt := createdAt))
  {
    MicrosTwice(u.createdAt);
    MicrosTwice(u.updatedAt);
  }

  /** The one owner row of a non-empty table. */
  lemma TheOwner(t: Table) returns (owner: Uuid)
    requires Shape(t) && t != map[]
    ensures owner in t && t[owner].role == Owner && Owners(t) == {owner}
    ensures forall id :: id in t && id != owner ==> t[id].role != Owner
  {
    owner :| owner in t && t[owner].role == Owner;
    forall id | id in t && id != owner ensures t[id].role != Owner {
      assert RowsApart(t, id, owner);
    }
  }

  /** A record some use case may try to write: a changed copy of its row, or a new user that is not an owner. */
  ghost predicate Fits(t: Table, w: UserData) {
    t != map[]
    && if w.id in t then w.email == t[w.id].email && (t[w.id].role == Owner ==> w.role == Owner) else w.role != Owner
  }

  /**
   * When a write meets a constraint: a changed copy only if it would make a second owner, a new user only if the e-mail
   * is taken.
   */
  lemma WriteFailsIff(t: Table, w: UserData)
    requires Shape(t) && Fits(t, w)
    ensures Save(t, w).None? <==> if w.id in t then w.role == Owner && t[w.id].role != Owner else HasEmail(t, w.email)
  {
    var owner := TheOwner(t);
    if w.id in t {
      forall id | id in t && id != w.id ensures t[id].email != w.email {
        assert RowsApart(t, id, w.id);
      }
    }
  }

  function NewRow(t: Table, w: UserData): UserData {
    if w.id in t then Row(w).(createdAt := t[w.id].createdAt) else Row(w)
  }

  lemma SaveShape(t: Table, w: UserData)
    requires Shape(t) && Fits(t, w) && Save(t, w).Some?
    ensures Save(t, w).value == t[w.id := NewRow(t, w)]
    ensures Shape(t[w.id := NewRow(t, w)]) && Continues(t, t[w.id := NewRow(t, w)])
  {
    var owner := TheOwner(t);
    WriteFailsIff(t, w);
    PutShape(t, NewRow(t, w), owner);
  }

  lemma PutAll(t: Table, r: UserData, t': Table, good: UserData -> bool)
    requires good(r) && (forall id :: id in t ==> good(t[id])) && t' == t[r.id := r]
    ensures forall id :: id in t' ==> good(t'[id])
  {
  }

  lemma PutStored(cs: Charset, t: Table, r: UserData, t': Table)
    requires (forall id :: id in t ==> Stored(cs, t[id])) && Stored(cs, r) && t' == t[r.id := r]
    ensures forall id :: id in t' ==> Stored(cs, t'[id])
  {
    PutAll(t, r, t', (u: UserData) => Stored(cs, u));
  }

  lemma SaveKept(cs: Charset, t: Table, w: UserData)
    requires TableKept(cs, t) && WellKept(cs, w) && Fits(t, w) && Save(t, w).Some?
    ensures TableKept(cs, Save(t, w).value) && Continues(t, Save(t, w).value)
  {
    SaveShape(t, w);
    NewRowStored(cs, t, w);
    PutStored(cs, t, NewRow(t, w), Save(t, w).value);
  }

  lemma NewRowStored(cs: Charset, t: Table, w: UserData)
    requires WellKept(cs, w) && (w.id in t ==> Stored(cs, t[w.id]))
    ensures Stored(cs, NewRow(t, w))
  {
    RowStored(cs, w, if w.id in t then t[w.id].createdAt else 0);
  }

  /** The first row of the table is the owner's; after that nobody claims ownership. */
  lemma Claim(cs: Charset, t: Table, u: UserData)
    requires TableKept(cs, t) && WellKept(cs, u) && u.id !in t
    ensures SaveFirstOwner(t, u).Some? <==> t == map[]
    ensures t == map[] ==> TableKept(cs, SaveFirstOwner(t, u).value) && Continues(t, SaveFirstOwner(t, u).value)
  {
    if t != map[] {
      var owner := TheOwner(t);
    } else {
      var r := Row(u.(role := Owner));
      RowStored(cs, u.(role := Owner), 0);
      PutShape(t, r, u.id);
    }
  }

  /** A row read back is the record that was stored: `scanUser` never fails on it and changes nothing. */
  lemma ScanKept(cs: Charset, t: Table, id: Uuid)
    requires TableKept(cs, t) && id in t
    ensures Found(cs, t, id) == Some(t[id]) && CopyKept(cs, t, t[id])
  {
    assert Stored(cs, t[id]);
  }

  lemma FinishKept(cs: Charset, s: State, c: nat, w: Option<UserData>)
    requires Inv(cs, s) && (w.Some? ==> WellKept(cs, w.value) && Fits(s.table, w.value))
    ensures Inv(cs, Finish(s, c, w)) && Continues(s.table, Finish(s, c, w).table)
  {
    var s' := Finish(s, c, w);
    if w.Some? && Save(s.table, w.value).Some? {
      SaveKept(cs, s.table, w.value);
    }
    forall k | k in s'.callers ensures CallerKept(cs, s'.table, s'.callers[k]) {
      CallerContinues(cs, s.table, s'.table, s.callers[k]);
    }
  }

  /** A caller appears, or changes its record, and the table stays. */
  lemma CallerSetKept(cs: Charset, s: State, k: nat, c: Caller)
    requires Inv(cs, s) && CallerKept(cs, s.table, c)
    ensures Inv(cs, s.(callers := s.callers[k := c]))
  {
  }

  ghost predicate ReadsBack(cs: Charset, t: Table) {
    forall id :: Found(cs, t, id) == if id in t then Some(t[id]) else None
  }

  lemma KeptReadsBack(cs: Charset, t: Table)
    requires TableKept(cs, t)
    ensures ReadsBack(cs, t)
  {
    forall id ensures Found(cs, t, id) == if id in t then Some(t[id]) else None {
      if id in t { ScanKept(cs, t, id); }
    }
  }

  /** What a reading step does when every row reads back. */
  lemma ReadResult(cs: Charset, s: State, e: Step)
    requires ReadsBack(cs, s.table) && Enabled(cs, s, e)
    ensures match e
      case FindByID(c, id) =>
        Apply(cs, s, e) == if id in s.table then s.(callers := s.callers[c := Holding(s.table[id])]) else s
      case FindActor(c, id) =>
        Apply(cs, s, e) == if id in s.table then s.(callers := s.callers[c := ActorRead(s.table[id])]) else s
      case FindTarget(c, id) => Apply(cs, s, e)
        == if id in s.table then s.(callers := s.callers[c := BothRead(s.callers[c].actor, s.table[id])])
           else Finish(s, c, None)
      case _ => true
  {
  }

  lemma FindByEmailResult(cs: Charset, s: State, c: nat, input: string, hash: string, name: string)
    requires c !in s.callers
    ensures var s', r := Apply(cs, s, FindByEmail(c, input, hash, name)), NewEmail(cs, input);
      s' == if r.Some? && !HasEmail(s.table, r.value)
            then s.(callers := s.callers[c := Registering(r.value, hash, name)]) else s
  {
  }

  lemma FindByEmailKept(cs: Charset, s: State, c: nat, input: string, hash: string, name: string)
    requires Sane(cs) && Inv(cs, s) && c !in s.callers
    ensures var s' := Apply(cs, s, FindByEmail(c, input, hash, name)); Inv(cs, s') && s'.table == s.table
  {
    FindByEmailResult(cs, s, c, input, hash, name);
    var r := NewEmail(cs, input);
    if r.Some? {
      var caller := Registering(r.value, hash, name);
      assert CallerKept(cs, s.table, caller) by { NewEmailIdempotent(cs, input); }
      CallerSetKept(cs, s, c, caller);
    }
  }

  lemma FoundKept(cs: Charset, s: State, c: nat, id: Uuid, next: Caller)
    requires Inv(cs, s) && id in s.table
    requires CopyKept(cs, s.table, s.table[id]) ==> CallerKept(cs, s.table, next)
    ensures Inv(cs, s.(callers := s.callers[c := next]))
  {
    ScanKept(cs, s.table, id);
    CallerSetKept(cs, s, c, next);
  }

  lemma FindTargetKept(cs: Charset, s: State, c: nat, id: Uuid)
    requires Inv(cs, s) && c in s.callers && s.callers[c].ActorRead?
    ensures id in s.table ==> Inv(cs, s.(callers := s.callers[c := BothRead(s.callers[c].actor, s.table[id])]))
    ensures Inv(cs, Finish(s, c, None))
  {
    assert CallerKept(cs, s.table, s.callers[c]);
    if id in s.table {
      FoundKept(cs, s, c, id, BothRead(s.callers[c].actor, s.table[id]));
    }
    FinishKept(cs, s, c, None);
  }

  lemma FindKept(cs: Charset, s: State, e: Step)
    requires Inv(cs, s) && Enabled(cs, s, e) && (e.FindByID? || e.FindActor? || e.FindTarget?)
    ensures Inv(cs, Apply(cs, s, e)) && Apply(cs, s, e).table == s.table
  {
    KeptReadsBack(cs, s.table);
    ReadResult(cs, s, e);
    if e.FindTarget? {
      FindTargetKept(cs, s, e.c, e.id);
    } else if e.id in s.table {
      FoundKept(cs, s, e.c, e.id, if e.FindByID? then Holding(s.table[e.id]) else ActorRead(s.table[e.id]));
    }
  }

  lemma NewUserKept(cs: Charset, id: Uuid, email: string, hash: string, name: string, role: Role, now: int)
    requires NormalEmail(cs, email)
    ensures var u := NewUser(cs, id, email, hash, name, role, now);
      u.Some? ==> WellKept(cs, u.value) && u.value.id == id && u.value.email == email && u.value.role == role
  {
    if NewName(cs, name).Some? {
      NewNameIdempotent(cs, name);
    }
  }

  lemma ClaimStepKept(cs: Charset, s: State, c: nat, id: Uuid, now: int)
    requires Inv(cs, s) && Enabled(cs, s, ClaimOwner(c, id, now))
    ensures var s' := Apply(cs, s, ClaimOwner(c, id, now)); Inv(cs, s') && Continues(s.table, s'.table)
  {
    var r := s.callers[c];
    assert CallerKept(cs, s.table, r);
    NewUserKept(cs, id, r.email, r.hash, r.name, Owner, now);
    var candidate := NewUser(cs, id, r.email, r.hash, r.name, Owner, now);
    if candidate.None? {
      FinishKept(cs, s, c, None);
    } else {
      Claim(cs, s.table, candidate.value);
      if s.table == map[] {
        var s' := Apply(cs, s, ClaimOwner(c, id, now));
        forall k | k in s'.callers ensures CallerKept(cs, s'.table, s'.callers[k]) {
          CallerContinues(cs, s.table, s'.table, s.callers[k]);
        }
      } else {
        CallerSetKept(cs, s, c, FallingBack(r.email, r.hash, r.name));
      }
    }
  }

  /** The record a saving caller writes. */
  function Written(cs: Charset, s: State, e: Step): Option<UserData>
    requires Enabled(cs, s, e)
  {
    match e
    case SaveFallback(c, id, now) =>
      NewUser(cs, id, s.callers[c].email, s.callers[c].hash, s.callers[c].name, Member, now)
    case SaveName(c, name, now) => UpdateName(cs, s.callers[c].user, name, now)
    case SavePassword(c, hash, now) => Some(UpdatePassword(s.callers[c].user, hash, now))
    case SaveRole(c, role, now) => ChangeRole(s.callers[c].target, role, s.callers[c].actor, now)
    case _ => None
  }

  lemma WrittenIsWell(cs: Charset, s: State, e: Step)
    requires Inv(cs, s) && Enabled(cs, s, e) && Written(cs, s, e).Some?
    ensures WellKept(cs, Written(cs, s, e).value)
  {
    var c := s.callers[e.c];
    assert CallerKept(cs, s.table, c);
    match e {
      case SaveFallback(_, id, now) => NewUserKept(cs, id, c.email, c.hash, c.name, Member, now);
      case SaveName(_, name, now) => RenamedWell(cs, c.user, name, now);
      case _ =>
    }
  }

  lemma WrittenFits(cs: Charset, s: State, e: Step)
    requires Inv(cs, s) && Enabled(cs, s, e) && Written(cs, s, e).Some?
    ensures Fits(s.table, Written(cs, s, e).value)
  {
    var c := s.callers[e.c];
    assert CallerKept(cs, s.table, c);
    match e {
      case SaveFallback(_, id, now) => NewUserKept(cs, id, c.email, c.hash, c.name, Member, now);
      case SaveRole(_, _, _) =>
        assert c.target.id != c.actor.id ==> RowsApart(s.table, c.target.id, c.actor.id);
      case _ =>
    }
  }

  lemma StepKept(cs: Charset, s: State, e: Step)
    requires Sane(cs) && Inv(cs, s) && Enabled(cs, s, e)
    ensures Inv(cs, Apply(cs, s, e)) && Continues(s.table, Apply(cs, s, e).table)
  {
    match e {
      case ClaimOwner(c, id, now) => ClaimStepKept(cs, s, c, id, now);
      case SaveFallback(c, _, _) => WriteStepKept(cs, s, e);
      case SaveName(c, _, _) => WriteStepKept(cs, s, e);
      case SavePassword(c, _, _) => WriteStepKept(cs, s, e);
      case SaveRole(c, _, _) => WriteStepKept(cs, s, e);
      case Leave(c) => FinishKept(cs, s, c, None);
      case FindByEmail(c, email, hash, name) => FindByEmailKept(cs, s, c, email, hash, name);
      case _ => FindKept(cs, s, e);
    }
  }

  lemma WriteResult(cs: Charset, s: State, e: Step)
    requires Enabled(cs, s, e) && (e.SaveFallback? || e.SaveName? || e.SavePassword? || e.SaveRole?)
    ensures Apply(cs, s, e) == Finish(s, e.c, Written(cs, s, e))
  {
  }

  lemma WriteStepKept(cs: Charset, s: State, e: Step)
    requires Inv(cs, s) && Enabled(cs, s, e) && (e.SaveFallback? || e.SaveName? || e.SavePassword? || e.SaveRole?)
    ensures Inv(cs, Apply(cs, s, e)) && Continues(s.table, Apply(cs, s, e).table)
  {
    if Written(cs, s, e).Some? {
      WrittenIsWell(cs, s, e);
      WrittenFits(cs, s, e);
    }
    WriteResult(cs, s, e);
    FinishKept(cs, s, e.c, Written(cs, s, e));
  }

  lemma {:induction false} RunKept(cs: Charset, trace: seq<State>, es: seq<Step>, n: nat)
    requires Sane(cs) && IsRun(cs, trace, es) && Inv(cs, trace[0]) && n <= |es|
    ensures Inv(cs, trace[n]) && Continues(trace[0].table, trace[n].table)
  {
    if n > 0 {
      RunKept(cs, trace, es, n - 1);
      StepKept(cs, trace[n - 1], es[n - 1]);
      ContinuesOn(trace[0].table, trace[n - 1].table, trace[n].table);
    }
  }

  lemma ContinuesOn(t: Table, t': Table, t'': Table)
    requires Continues(t, t') && Continues(t', t'')
    ensures Continues(t, t'')
  {
  }

  // ---- results, for every run from the empty table

  ghost predicate Reachable(cs: Charset, s: State) {
    exists trace, es :: IsRun(cs, trace, es) && trace[0] == START && trace[|es|] == s
  }

  lemma ReachableKept(cs: Charset, s: State)
    requires Sane(cs) && Reachable(cs, s)
    ensures Inv(cs, s)
  {
    var trace, es :| IsRun(cs, trace, es) && trace[0] == START && trace[|es|] == s;
    RunKept(cs, trace, es, |es|);
  }

  /** A non-empty table has exactly one owner row, and whatever happens afterwards, that row stays the only owner. */
  lemma OneOwnerForever(cs: Charset, trace: seq<State>, es: seq<Step>)
    requires Sane(cs) && IsRun(cs, trace, es) && Reachable(cs, trace[0])
    ensures |Owners(trace[0].table)| == if trace[0].table == map[] then 0 else 1
    ensures trace[0].table != map[] ==> Owners(trace[|es|].table) == Owners(trace[0].table)
    ensures trace[0].table.Keys <= trace[|es|].table.Keys
  {
    ReachableKept(cs, trace[0]);
    RunKept(cs, trace, es, |es|);
    OwnerContinues(trace[0].table, trace[|es|].table);
  }

  lemma OwnerContinues(t: Table, t': Table)
    requires Shape(t) && Shape(t') && Continues(t, t')
    ensures |Owners(t)| == if t == map[] then 0 else 1
    ensures t != map[] ==> Owners(t') == Owners(t)
    ensures t.Keys <= t'.Keys
  {
    if t == map[] {
      assert Owners(t) == {};
    } else {
      var owner := TheOwner(t);
      assert owner in t';
      var owner' := TheOwner(t');
    }
  }

  /** No two rows share an e-mail, and no row ever changes its e-mail or its creation time. */
  lemma EmailsStayDistinct(cs: Charset, trace: seq<State>, es: seq<Step>, id: Uuid, id': Uuid)
    requires Sane(cs) && IsRun(cs, trace, es) && Reachable(cs, trace[0]) && id in trace[0].table
    ensures var t, t' := trace[0].table, trace[|es|].table;
      && (id' in t && t[id'].email == t[id].email ==> id == id')
      && id in t' && t'[id].email == t[id].email && t'[id].createdAt == t[id].createdAt
  {
    ReachableKept(cs, trace[0]);
    RunKept(cs, trace, es, |es|);
    assert id' !in trace[0].table || id == id' || RowsApart(trace[0].table, id, id');
  }

  /**
   * A role change takes effect exactly when the actor is the one owner, the target another user, and the new role not
   * owner; it then writes the target's row and no other.
   */
  lemma RoleChangeIsOwners(cs: Charset, s: State, c: nat, role: Role, now: int)
    requires Sane(cs) && Reachable(cs, s) && Enabled(cs, s, SaveRole(c, role, now))
    ensures var a, u, t' := s.callers[c].actor, s.callers[c].target, Apply(cs, s, SaveRole(c, role, now)).table;
      && a.id in s.table && u.id in s.table
      && (if Owners(s.table) == {a.id} && u.id != a.id && role != Owner
          then t' == s.table[u.id := Row(u.(role := role, updatedAt := now)).(createdAt := s.table[u.id].createdAt)]
          else t' == s.table)
  {
    ReachableKept(cs, s);
    assert CallerKept(cs, s.table, s.callers[c]);
    RoleChange(s, c, role, now);
  }

  lemma RoleChange(s: State, c: nat, role: Role, now: int)
    requires Shape(s.table) && c in s.callers && s.callers[c].BothRead?
    requires CopyOf(s.table, s.callers[c].actor) && CopyOf(s.table, s.callers[c].target)
    ensures var a, u := s.callers[c].actor, s.callers[c].target;
      Finish(s, c, ChangeRole(u, role, a, now)).table
        == (if Owners(s.table) == {a.id} && u.id != a.id && role != Owner
            then s.table[u.id := NewRow(s.table, u.(role := role, updatedAt := now))] else s.table)
  {
    var a, u := s.callers[c].actor, s.callers[c].target;
    var owner := TheOwner(s.table);
    if ChangeRole(u, role, a, now).Some? {
      assert RowsApart(s.table, u.id, a.id);
      WriteFailsIff(s.table, u.(role := role, updatedAt := now));
    }
  }

  lemma OwnUpdateIsCopy(cs: Charset, s: State, e: Step)
    requires Enabled(cs, s, e) && (e.SaveName? || e.SavePassword?) && Written(cs, s, e).Some?
    ensures var w, u := Written(cs, s, e).value, s.callers[e.c].user;
      w.id == u.id && w.role == u.role && w.email == u.email
  {
  }

  lemma CopyNeverConflicts(t: Table, u: UserData, w: UserData)
    requires Shape(t) && CopyOf(t, u) && w.id == u.id && w.role == u.role && w.email == u.email
    ensures Save(t, w).Some? && w.id in Save(t, w).value && Save(t, w).value[w.id].role == u.role
  {
    WriteFailsIff(t, w);
  }

  /** Profile and password updates never meet a constraint, however stale the copy. */
  lemma OwnUpdatesNeverConflict(cs: Charset, s: State, e: Step)
    requires Sane(cs) && Reachable(cs, s) && Enabled(cs, s, e) && (e.SaveName? || e.SavePassword?)
    requires Written(cs, s, e).Some?
    ensures Save(s.table, Written(cs, s, e).value).Some?
  {
    ReachableKept(cs, s);
    assert CallerKept(cs, s.table, s.callers[e.c]);
    OwnUpdateIsCopy(cs, s, e);
    CopyNeverConflicts(s.table, s.callers[e.c].user, Written(cs, s, e).value);
  }

  /** The fall-back of a registration fails exactly when its e-mail has been taken since it was looked up. */
  lemma FallbackFailsIffEmailTaken(cs: Charset, s: State, c: nat, id: Uuid, now: int)
    requires Sane(cs) && Reachable(cs, s) && Enabled(cs, s, SaveFallback(c, id, now))
    requires Written(cs, s, SaveFallback(c, id, now)).Some?
    ensures var t' := Apply(cs, s, SaveFallback(c, id, now)).table;
      (id in t' <==> !HasEmail(s.table, s.callers[c].email)) && (id in t' ==> t'[id].role == Member)
  {
    ReachableKept(cs, s);
    var e := SaveFallback(c, id, now);
    assert CallerKept(cs, s.table, s.callers[c]);
    WrittenFits(cs, s, e);
    NewUserKept(cs, id, s.callers[c].email, s.callers[c].hash, s.callers[c].name, Member, now);
    FallbackWrites(s, c, Written(cs, s, e).value);
  }

  lemma FallbackWrites(s: State, c: nat, w: UserData)
    requires Shape(s.table) && Fits(s.table, w) && w.id !in s.table
    ensures var t' := Finish(s, c, Some(w)).table;
      (w.id in t' <==> !HasEmail(s.table, w.email)) && (w.id in t' ==> t'[w.id].role == w.role)
  {
    WriteFailsIff(s.table, w);
  }

  /** Every stored row reads back as it is: its e-mail is in normal form, its name trimmed and of legal length. */
  lemma EveryRowReadsBack(cs: Charset, s: State, id: Uuid)
    requires Sane(cs) && Reachable(cs, s) && id in s.table
    ensures Found(cs, s.table, id) == Some(s.table[id])
    ensures NormalEmail(cs, s.table[id].email) && NormalName(cs, s.table[id].name)
    ensures 1 <= Len(cs, s.table[id].name) <= 100
  {
    ReachableKept(cs, s);
    ScanKept(cs, s.table, id);
  }

  /** Saving a record and reading it back gives the record, to the microsecond and with the row's creation time. */
  lemma SaveThenFind(cs: Charset, s: State, e: Step)
    requires Sane(cs) && Reachable(cs, s) && Enabled(cs, s, e) && Written(cs, s, e).Some?
    requires Save(s.table, Written(cs, s, e).value).Some?
    ensures var w := Written(cs, s, e).value;
      Found(cs, Save(s.table, w).value, w.id)
        == Some(if w.id in s.table then Row(w).(createdAt := s.table[w.id].createdAt) else Row(w))
  {
    ReachableKept(cs, s);
    var w := Written(cs, s, e).value;
    WrittenIsWell(cs, s, e);
    WrittenFits(cs, s, e);
    SaveKept(cs, s.table, w);
    ScanKept(cs, Save(s.table, w).value, w.id);
  }

  // ---- what a registration writes and what a read hands out

  /** The row of a new account, with its time cut to microseconds. */
  ghost predicate NewAccount(cs: Charset, c: Caller, id: Uuid, role: Role, now: int, row: UserData)
    requires c.Registering? || c.FallingBack?
  {
    && row.id == id && row.email == c.email && row.hash == c.hash && Some(row.name) == NewName(cs, c.name)
    && row.role == role && row.active
    && row.createdAt == row.updatedAt && row.createdAt % 1000 == 0 && row.createdAt <= now < row.createdAt + 1000
  }

  lemma NewUserIs(cs: Charset, r: Caller, id: Uuid, role: Role, now: int)
    requires r.Registering? || r.FallingBack?
    ensures var w := NewUser(cs, id, r.email, r.hash, r.name, role, now);
      && (w.None? <==> NewName(cs, r.name).None?)
      && (w.Some? ==>
        && w.value.id == id && w.value.email == r.email && w.value.role == role
        && NewAccount(cs, r, id, role, now, Row(w.value)))
  {
    assert now - now % 1000 == 1000 * (now / 1000);
  }

  lemma ClaimResult(cs: Charset, s: State, c: nat, id: Uuid, now: int)
    requires Enabled(cs, s, ClaimOwner(c, id, now))
    ensures var s', r := Apply(cs, s, ClaimOwner(c, id, now)), s.callers[c];
      var w := NewUser(cs, id, r.email, r.hash, r.name, Owner, now);
      if w.None? then s' == s.(callers := s.callers - {c})
      else
        match SaveFirstOwner(s.table, w.value)
        case Some(t) => s' == State(t, s.callers - {c})
        case None => s' == s.(callers := s.callers[c := FallingBack(r.email, r.hash, r.name)])
  {
  }

  /**
   * Claiming ownership on the empty table makes the one row, an owner's; on any other table the caller falls back and
   * nothing is written. A name of illegal length ends the registration.
   */
  lemma ClaimWrites(cs: Charset, s: State, c: nat, id: Uuid, now: int)
    requires Sane(cs) && Reachable(cs, s) && Enabled(cs, s, ClaimOwner(c, id, now))
    ensures var s', r := Apply(cs, s, ClaimOwner(c, id, now)), s.callers[c];
      if NewName(cs, r.name).None? then s' == s.(callers := s.callers - {c})
      else if s.table == map[] then
        s'.callers == s.callers - {c} && s'.table.Keys == {id} && NewAccount(cs, r, id, Owner, now, s'.table[id])
      else s' == s.(callers := s.callers[c := FallingBack(r.email, r.hash, r.name)])
  {
    var r := s.callers[c];
    NewUserIs(cs, r, id, Owner, now);
    ClaimResult(cs, s, c, id, now);
    var w := NewUser(cs, id, r.email, r.hash, r.name, Owner, now);
    if w.Some? {
      assert SaveFirstOwner(s.table, w.value).Some? <==> s.table == map[] by { ClaimIffEmpty(cs, s, c, w.value); }
      assert w.value.(role := Owner) == w.value;
      if s.table == map[] {
        assert map[][id := Row(w.value)].Keys == {id};
      }
    }
  }

  lemma ClaimIffEmpty(cs: Charset, s: State, c: nat, w: UserData)
    requires Sane(cs) && Reachable(cs, s) && c in s.callers && s.callers[c].Registering? && w.id !in s.table
    requires var r := s.callers[c]; exists now :: NewUser(cs, w.id, r.email, r.hash, r.name, Owner, now) == Some(w)
    ensures SaveFirstOwner(s.table, w).Some? <==> s.table == map[]
  {
    ReachableKept(cs, s);
    var r := s.callers[c];
    assert CallerKept(cs, s.table, r);
    var now :| NewUser(cs, w.id, r.email, r.hash, r.name, Owner, now) == Some(w);
    NewUserKept(cs, w.id, r.email, r.hash, r.name, Owner, now);
    Claim(cs, s.table, w);
  }

  lemma FallbackResult(cs: Charset, s: State, c: nat, id: Uuid, now: int)
    requires Enabled(cs, s, SaveFallback(c, id, now))
    ensures var s', r := Apply(cs, s, SaveFallback(c, id, now)), s.callers[c];
      s' == Finish(s, c, NewUser(cs, id, r.email, r.hash, r.name, Member, now)) && s'.callers == s.callers - {c}
  {
  }

  /** The fall-back adds a plain user's row exactly when nobody has the e-mail, and changes no other. */
  lemma FallbackAdds(cs: Charset, s: State, c: nat, id: Uuid, now: int)
    requires Sane(cs) && Reachable(cs, s) && Enabled(cs, s, SaveFallback(c, id, now))
    ensures var s', r := Apply(cs, s, SaveFallback(c, id, now)), s.callers[c];
      s'.callers == s.callers - {c}
      && if NewName(cs, r.name).None? || HasEmail(s.table, r.email) then s'.table == s.table
         else
           id in s'.table && s'.table == s.table[id := s'.table[id]]
           && NewAccount(cs, r, id, Member, now, s'.table[id])
  {
    var r := s.callers[c];
    NewUserIs(cs, r, id, Member, now);
    FallbackResult(cs, s, c, id, now);
    var w := NewUser(cs, id, r.email, r.hash, r.name, Member, now);
    if w.Some? {
      assert Save(s.table, w.value).None? <==> HasEmail(s.table, r.email) by {
        ReachableKept(cs, s);
        WrittenFits(cs, s, SaveFallback(c, id, now));
        WriteFailsIff(s.table, w.value);
      }
    }
  }

  lemma ReachableReadsBack(cs: Charset, s: State)
    requires Sane(cs) && Reachable(cs, s)
    ensures ReadsBack(cs, s.table)
  {
    ReachableKept(cs, s);
    KeptReadsBack(cs, s.table);
  }

  /** A caller's copy is the row as it is at the read; where there is no row, the use case is over. */
  lemma ReadsAreRows(cs: Charset, s: State, c: nat, id: Uuid)
    requires Sane(cs) && Reachable(cs, s)
    ensures c !in s.callers ==>
      && Apply(cs, s, FindByID(c, id))
        == (if id in s.table then s.(callers := s.callers[c := Holding(s.table[id])]) else s)
      && Apply(cs, s, FindActor(c, id))
        == (if id in s.table then s.(callers := s.callers[c := ActorRead(s.table[id])]) else s)
    ensures c in s.callers && s.callers[c].ActorRead? ==>
      Apply(cs, s, FindTarget(c, id))
        == if id in s.table then s.(callers := s.callers[c := BothRead(s.callers[c].actor, s.table[id])])
           else s.(callers := s.callers - {c})
  {
    ReachableReadsBack(cs, s);
    if c !in s.callers {
      ReadResult(cs, s, FindByID(c, id));
      ReadResult(cs, s, FindActor(c, id));
    } else if s.callers[c].ActorRead? {
      ReadResult(cs, s, FindTarget(c, id));
    }
  }

  // ---- lost updates

  predicate Updates(e: Step) { e.SaveName? || e.SavePassword? || e.SaveRole? }

  /** The copy the caller of an update writes back, changed in one field. */
  function CopyHeld(cs: Charset, s: State, e: Step): UserData
    requires Updates(e) && Enabled(cs, s, e)
  {
    if e.SaveRole? then s.callers[e.c].target else s.callers[e.c].user
  }

  /** When an update writes at all. */
  predicate TakesEffect(cs: Charset, s: State, e: Step)
    requires Updates(e) && Enabled(cs, s, e)
  {
    match e
    case SaveName(_, name, _) => NewName(cs, name).Some?
    case SavePassword(_, _, _) => true
    case SaveRole(c, role, _) =>
      Owners(s.table) == {s.callers[c].actor.id} && s.callers[c].target.id != s.callers[c].actor.id && role != Owner
  }

  /** The row gets the copy's value: what was there is preserved exactly when the copy agrees with it. */
  predicate WrittenBack<T(==)>(copy: T, row: T, row': T) { row' == copy && (row' == row <==> copy == row) }

  /** The row `r` becomes `r'`: the update's own field is set, and the others are written back from the copy `u`. */
  ghost predicate OneFieldSet(cs: Charset, e: Step, u: UserData, r: UserData, r': UserData)
    requires Updates(e)
  {
    && (if e.SaveName? then Some(r'.name) == NewName(cs, e.name) else WrittenBack(u.name, r.name, r'.name))
    && (if e.SavePassword? then r'.hash == e.hash else WrittenBack(u.hash, r.hash, r'.hash))
    && (if e.SaveRole? then r'.role == e.role else WrittenBack(u.role, r.role, r'.role))
    && WrittenBack(u.active, r.active, r'.active)
    && r'.id == r.id && r'.email == r.email && r'.createdAt == r.createdAt && r'.updatedAt == e.now - e.now % 1000
  }

  lemma SavedCopy(s: State, c: nat, u: UserData, w: UserData)
    requires Shape(s.table) && CopyOf(s.table, u) && w.id == u.id && w.role == u.role && w.email == u.email
    ensures Finish(s, c, Some(w)).table == s.table[u.id := NewRow(s.table, w)]
  {
    CopyNeverConflicts(s.table, u, w);
  }

  lemma NameUpdate(cs: Charset, s: State, e: Step)
    requires Shape(s.table) && e.SaveName? && Enabled(cs, s, e) && CopyOf(s.table, s.callers[e.c].user)
    ensures var t, t', u := s.table, Apply(cs, s, e).table, s.callers[e.c].user;
      u.id in t'
      && if NewName(cs, e.name).Some? then t' == t[u.id := t'[u.id]] && OneFieldSet(cs, e, u, t[u.id], t'[u.id])
         else t' == t
  {
    if NewName(cs, e.name).Some? {
      var u := s.callers[e.c].user;
      SavedCopy(s, e.c, u, UpdateName(cs, u, e.name, e.now).value);
    }
  }

  lemma PasswordUpdate(cs: Charset, s: State, e: Step)
    requires Shape(s.table) && e.SavePassword? && Enabled(cs, s, e) && CopyOf(s.table, s.callers[e.c].user)
    ensures var t, t', u := s.table, Apply(cs, s, e).table, s.callers[e.c].user;
      u.id in t' && t' == t[u.id := t'[u.id]] && OneFieldSet(cs, e, u, t[u.id], t'[u.id])
  {
    var u := s.callers[e.c].user;
    SavedCopy(s, e.c, u, UpdatePassword(u, e.hash, e.now));
  }

  lemma RoleUpdate(cs: Charset, s: State, e: Step)
    requires Shape(s.table) && e.SaveRole? && Enabled(cs, s, e)
    requires CopyOf(s.table, s.callers[e.c].actor) && CopyOf(s.table, s.callers[e.c].target)
    ensures var t, t', u := s.table, Apply(cs, s, e).table, s.callers[e.c].target;
      u.id in t'
      && if TakesEffect(cs, s, e) then t' == t[u.id := t'[u.id]] && OneFieldSet(cs, e, u, t[u.id], t'[u.id])
         else t' == t
  {
    RoleChange(s, e.c, e.role, e.now);
  }

  /**
   * Profile, password and role updates write every column back. Whatever ran since the caller read its copy, the update
   * sets its own field, changes no other row, and preserves each other field of the row exactly when the copy agrees
   * with the row on it. An update that does not take effect changes nothing.
   */
  lemma LostUpdates(cs: Charset, s: State, e: Step)
    requires Sane(cs) && Reachable(cs, s) && Updates(e) && Enabled(cs, s, e)
    ensures var t, t', u := s.table, Apply(cs, s, e).table, CopyHeld(cs, s, e);
      && u.id in t && u.id in t'
      && if TakesEffect(cs, s, e) then t' == t[u.id := t'[u.id]] && OneFieldSet(cs, e, u, t[u.id], t'[u.id])
         else t' == t
  {
    ReachableKept(cs, s);
    assert CallerKept(cs, s.table, s.callers[e.c]);
    match e {
      case SaveName(_, _, _) => NameUpdate(cs, s, e);
      case SavePassword(_, _, _) => PasswordUpdate(cs, s, e);
      case SaveRole(_, _, _) => RoleUpdate(cs, s, e);
    }
  }

  /**
   * A profile update that read before a role change and writes after it brings back the role and the password hash of
   * its copy; so the new role survives exactly when the copy had it. (A demotion can be undone; ownership cannot.)
   */
  lemma StaleProfileUndoesRoleChange(cs: Charset, s: State, c: nat, c': nat, role: Role, name: string, now: int)
    requires Sane(cs) && Reachable(cs, s) && c != c'
    requires Enabled(cs, s, SaveRole(c, role, now)) && Enabled(cs, s, SaveName(c', name, now))
    requires s.callers[c].target.id == s.callers[c'].user.id && NewName(cs, name).Some?
    ensures var s1, u := Apply(cs, s, SaveRole(c, role, now)), s.callers[c'].user;
      && Enabled(cs, s1, SaveName(c', name, now)) && u.id in s1.table
      && var t := Apply(cs, s1, SaveName(c', name, now)).table;
         && u.id in t && t[u.id].role == u.role && t[u.id].hash == u.hash
         && (t[u.id].role == s1.table[u.id].role <==> u.role == s1.table[u.id].role)
  {
    ReachableKept(cs, s);
    var e := SaveRole(c, role, now);
    StepKept(cs, s, e);
    StaleCopyStays(cs, s, e, c', name, now);
    var s1, u := Apply(cs, s, e), s.callers[c'].user;
    assert Shape(s1.table) && CopyOf(s1.table, u) by { assert CallerKept(cs, s1.table, s1.callers[c']); }
    NameUpdate(cs, s1, SaveName(c', name, now));
  }

  lemma StaleCopyStays(cs: Charset, s: State, e: Step, c': nat, name: string, now: int)
    requires Enabled(cs, s, e) && e.SaveRole? && e.c != c' && Enabled(cs, s, SaveName(c', name, now))
    ensures Enabled(cs, Apply(cs, s, e), SaveName(c', name, now)) && Apply(cs, s, e).callers[c'] == s.callers[c']
  {
    OthersStay(cs, s, e);
  }

  lemma OthersStay(cs: Charset, s: State, e: Step)
    requires Enabled(cs, s, e) && e.SaveRole?
    ensures Apply(cs, s, e).callers == s.callers - {e.c}
  {
    WriteResult(cs, s, e);
  }

  // ---- and they happen

  lemma Extend(cs: Charset, trace: seq<State>, es: seq<Step>, e: Step, s: State)
    requires IsRun(cs, trace, es) && Enabled(cs, trace[|es|], e) && s == Apply(cs, trace[|es|], e)
    ensures IsRun(cs, trace + [s], es + [e])
  {
    var trace', es' := trace + [s], es + [e];
    forall i | 0 <= i < |es'| ensures Enabled(cs, trace'[i], es'[i]) && trace'[i + 1] == Apply(cs, trace'[i], es'[i]) {
      if i < |es| {
        assert trace'[i] == trace[i] && trace'[i + 1] == trace[i + 1] && es'[i] == es[i];
      } else {
        assert trace'[i] == trace[|es|] && trace'[i + 1] == s && es'[i] == e;
      }
    }
  }

  lemma ReachNext(cs: Charset, s: State, e: Step)
    requires Reachable(cs, s) && Enabled(cs, s, e)
    ensures Reachable(cs, Apply(cs, s, e))
  {
    var trace, es :| IsRun(cs, trace, es) && trace[0] == START && trace[|es|] == s;
    var s' := Apply(cs, s, e);
    Extend(cs, trace, es, e, s');
    assert (trace + [s'])[0] == START && (trace + [s'])[|es + [e]|] == s';
  }

  lemma StartReachable(cs: Charset)
    ensures Reachable(cs, START)
  {
    assert IsRun(cs, [START], []) && [START][0] == START;
  }

  function Registered(id: Uuid, email: string, hash: string, name: string, role: Role, now: int): UserData {
    Row(UserData(id, email, hash, name, role, true, now, now))
  }

  lemma OwnerRegisters(cs: Charset, o: Uuid, e: string, h: string, n: string, now: int) returns (s: State)
    requires NormalEmail(cs, e) && NormalName(cs, n)
    ensures Reachable(cs, s) && s == State(map[o := Registered(o, e, h, n, Owner, now)], map[])
  {
    StartReachable(cs);
    ReachNext(cs, START, FindByEmail(0, e, h, n));
    var s1 := START.(callers := map[0 := Registering(e, h, n)]);
    ReachNext(cs, s1, ClaimOwner(0, o, now));
    s := Apply(cs, s1, ClaimOwner(0, o, now));
  }

  /** Then a second user's claim of ownership is refused. */
  lemma ClaimRefused(cs: Charset, o: Uuid, m: Uuid, eo: string, em: string, h: string, n: string, now: int)
      returns (s: State)
    requires NormalEmail(cs, eo) && NormalEmail(cs, em) && eo != em && NormalName(cs, n) && o != m
    ensures Reachable(cs, s)
    ensures s == State(map[o := Registered(o, eo, h, n, Owner, now)], map[0 := FallingBack(em, h, n)])
  {
    var s1 := OwnerRegisters(cs, o, eo, h, n, now);
    ReachNext(cs, s1, FindByEmail(0, em, h, n));
    var s2 := s1.(callers := map[0 := Registering(em, h, n)]);
    assert Apply(cs, s1, FindByEmail(0, em, h, n)) == s2;
    ReachNext(cs, s2, ClaimOwner(0, m, now));
    s := s1.(callers := map[0 := FallingBack(em, h, n)]);
    assert Apply(cs, s2, ClaimOwner(0, m, now)) == s by { assert o in s2.table; }
  }

  /** The owner registers, then a second user. */
  lemma TwoRegister(cs: Charset, o: Uuid, m: Uuid, eo: string, em: string, h: string, n: string, now: int)
      returns (s: State)
    requires NormalEmail(cs, eo) && NormalEmail(cs, em) && eo != em && NormalName(cs, n) && o != m
    ensures Reachable(cs, s)
    ensures s == State(map[o := Registered(o, eo, h, n, Owner, now), m := Registered(m, em, h, n, Member, now)], map[])
  {
    var s1 := ClaimRefused(cs, o, m, eo, em, h, n, now);
    ReachNext(cs, s1, SaveFallback(0, m, now));
    s := Apply(cs, s1, SaveFallback(0, m, now));
  }

  /** Then the owner is about to change the user's role, and two other requests of the user hold copies. */
  lemma FourRead(cs: Charset, o: Uuid, m: Uuid, eo: string, em: string, h: string, n: string, now: int)
      returns (s: State)
    requires NormalEmail(cs, eo) && NormalEmail(cs, em) && eo != em && NormalName(cs, n) && o != m
    ensures Reachable(cs, s)
    ensures var owner, user := Registered(o, eo, h, n, Owner, now), Registered(m, em, h, n, Member, now);
      s == State(map[o := owner, m := user], map[1 := BothRead(owner, user), 2 := Holding(user), 3 := Holding(user)])
  {
    var owner, user := Registered(o, eo, h, n, Owner, now), Registered(m, em, h, n, Member, now);
    var s0 := TwoRegister(cs, o, m, eo, em, h, n, now);
    ReachNext(cs, s0, FindActor(1, o));
    var s1 := s0.(callers := map[1 := ActorRead(owner)]);
    ReachNext(cs, s1, FindTarget(1, m));
    var s2 := s0.(callers := map[1 := BothRead(owner, user)]);
    assert Apply(cs, s1, FindTarget(1, m)) == s2;
    ReachNext(cs, s2, FindByID(2, m));
    var s3 := s0.(callers := map[1 := BothRead(owner, user), 2 := Holding(user)]);
    assert Apply(cs, s2, FindByID(2, m)) == s3;
    ReachNext(cs, s3, FindByID(3, m));
    s := Apply(cs, s3, FindByID(3, m));
  }

  /** A run in which a role is changed and then put back by a profile update. */
  lemma RoleChangeUndone(cs: Charset, o: Uuid, m: Uuid, eo: string, em: string, h: string, n: string, role: Role,
      now: int)
    returns (s: State)
    requires Sane(cs) && NormalEmail(cs, eo) && NormalEmail(cs, em) && eo != em && NormalName(cs, n) && o != m
    requires role != Owner && role != Member
    ensures Reachable(cs, s) && Enabled(cs, s, SaveRole(1, role, now)) && m in s.table && s.table[m].role == Member
    ensures var s1 := Apply(cs, s, SaveRole(1, role, now));
      && m in s1.table && s1.table[m].role == role && Enabled(cs, s1, SaveName(2, n, now))
      && var s2 := Apply(cs, s1, SaveName(2, n, now)); m in s2.table && s2.table[m].role == Member
  {
    s := FourRead(cs, o, m, eo, em, h, n, now);
    assert Owners(s.table) == {o};
    LostUpdates(cs, s, SaveRole(1, role, now));
    StaleProfileUndoesRoleChange(cs, s, 1, 2, role, n, now);
  }

  /** A run in which a password is changed and then put back by a profile update. */
  lemma PasswordChangeUndone(cs: Charset, o: Uuid, m: Uuid, eo: string, em: string, h: string, h': string, n: string,
      now: int)
    returns (s: State)
    requires Sane(cs) && NormalEmail(cs, eo) && NormalEmail(cs, em) && eo != em && NormalName(cs, n) && o != m
    requires h != h'
    ensures Reachable(cs, s) && Enabled(cs, s, SavePassword(3, h', now)) && m in s.table && s.table[m].hash == h
    ensures var s1 := Apply(cs, s, SavePassword(3, h', now));
      && m in s1.table && s1.table[m].hash == h' && Enabled(cs, s1, SaveName(2, n, now))
      && var s2 := Apply(cs, s1, SaveName(2, n, now)); m in s2.table && s2.table[m].hash == h
  {
    s := FourRead(cs, o, m, eo, em, h, n, now);
    var e := SavePassword(3, h', now);
    LostUpdates(cs, s, e);
    ReachNext(cs, s, e);
    WriteResult(cs, s, e);
    LostUpdates(cs, Apply(cs, s, e), SaveName(2, n, now));
  }

  /** With the addresses and names of one charset: runs without hypotheses. */
  lemma UpdatesAreLost() returns (s: State, m: Uuid, s': State)
    ensures Reachable(Ascii(), s) && m in s.table && s.table[m].role == Member
    ensures Enabled(Ascii(), s, SaveRole(1, Admin, 0))
    ensures var s1 := Apply(Ascii(), s, SaveRole(1, Admin, 0));
      && m in s1.table && s1.table[m].role == Admin && Enabled(Ascii(), s1, SaveName(2, "a", 0))
      && var s2 := Apply(Ascii(), s1, SaveName(2, "a", 0)); m in s2.table && s2.table[m].role == Member
    ensures Reachable(Ascii(), s') && m in s'.table && s'.table[m].hash == "h"
    ensures Enabled(Ascii(), s', SavePassword(3, "k", 0))
    ensures var s1 := Apply(Ascii(), s', SavePassword(3, "k", 0));
      && m in s1.table && s1.table[m].hash == "k" && Enabled(Ascii(), s1, SaveName(2, "a", 0))
      && var s2 := Apply(Ascii(), s1, SaveName(2, "a", 0)); m in s2.table && s2.table[m].hash == "h"
  {
    AsciiIsSane();
    AsciiNormal('a');
    AsciiNormal('b');
    var o: Uuid := seq(16, _ => 1);
    m := seq(16, _ => 2);
    assert o[0] != m[0];
    var eo, em := ['a'] + "@b.c", ['b'] + "@b.c";
    assert eo[0] != em[0] && ['a'] == "a" && "h"[0] != "k"[0];
    s := RoleChangeUndone(Ascii(), o, m, eo, em, "h", "a", Admin, 0);
    s' := PasswordChangeUndone(Ascii(), o, m, eo, em, "h", "k", "a", 0);
  }
}
