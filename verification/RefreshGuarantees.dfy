/** What the refresh-token protocol guarantees in every run, with any number of concurrent callers. */
module RefreshGuarantees {
  import opened Common
  import opened Uuids
  import opened RedisStore
  import opened RefreshProtocol
  import JwtServices

  ghost predicate Reachable(ttl: int, s: State) {
    exists es :: LegalRun(ttl, START, es) && Run(ttl, START, es) == s
  }

  lemma ReachableKept(ttl: int, s: State)
    requires ttl > 0 && Reachable(ttl, s)
    ensures Inv(s)
  {
    var es :| LegalRun(ttl, START, es) && Run(ttl, START, es) == s;
    StartKept();
    RunKept(ttl, START, es);
  }

  // ---- one redemption per token

  /** No token is answered OK twice: the log of OK answers has no repetition. */
  lemma AtMostOneOK(ttl: int, s: State)
    requires ttl > 0 && Reachable(ttl, s)
    ensures Distinct(s.answered)
  {
    ReachableKept(ttl, s);
  }

  lemma {:induction false} RunGrows(ttl: int, s: State, es: seq<Step>, t: string)
    requires LegalRun(ttl, s, es)
    ensures t in s.answered ==> t in Run(ttl, s, es).answered
    ensures s.writes <= Run(ttl, s, es).writes
    ensures t in s.issued ==> t in Run(ttl, s, es).issued && Run(ttl, s, es).issued[t] == s.issued[t]
    decreases |es|
  {
    if es != [] {
      StepGrows(ttl, s, es[0], t);
      RunGrows(ttl, Apply(ttl, s, es[0]), es[1..], t);
    }
  }

  /**
   * Two executions of the script for one token, with anything at all in between - retries, lost replies, expiries,
   * revocations, other callers - are not both answered OK, whether or not the replies arrive.
   */
  lemma SecondRedeemIsNeverOK(ttl: int, s: State, token: string, receiver: Option<nat>, es: seq<Step>)
    requires ttl > 0 && Reachable(ttl, s)
    requires Enabled(s, Step.Redeem(token, receiver)) && LegalRun(ttl, Apply(ttl, s, Step.Redeem(token, receiver)), es)
    requires RedeemReply(s.redis, token).OK?
    ensures !RedeemReply(Run(ttl, Apply(ttl, s, Step.Redeem(token, receiver)), es).redis, token).OK?
  {
    ReachableKept(ttl, s);
    var s' := Apply(ttl, s, Step.Redeem(token, receiver));
    StepKept(ttl, s, Step.Redeem(token, receiver));
    assert token in s'.answered by {
      assert s'.answered == s.answered + [token];
    }
    RunGrows(ttl, s', es, token);
    RunKept(ttl, s', es);
    var end := Run(ttl, s', es);
    if RedeemReply(end.redis, token).OK? {
      RedeemOKIsFirst(end, token);
    }
  }

  /** In every reachable state no token is both live and tombstoned, so the store is one machine per token. */
  lemma NeverLiveAndUsed(ttl: int, s: State)
    requires ttl > 0 && Reachable(ttl, s)
    ensures Exclusive(s.redis)
  {
    ReachableKept(ttl, s);
    forall t ensures !(LiveEntry(s.redis, t).Some? && UsedEntry(s.redis, t).Some?) {
      assert TokenKept(s, t);
    }
  }

  /** The command on the store that a step is, if it touches the store. */
  ghost function CommandOf(ttl: int, s: State, e: Step): Option<Command>
    requires Enabled(s, e)
  {
    match e
    case WriteToken(id) => Some(Issue(s.callers[id].user, s.callers[id].token, ttl))
    case Redeem(token, _) => Some(Command.Redeem(token))
    case CleanIndex(user, token) => Some(DropIndex(user, token))
    case RevokeOne(token) => Some(DropLive(token))
    case RevokeKey(id, key) =>
      Some(Revoke(s.callers[id].user, TrimPrefix(key, UserRefreshKeyPrefix(s.callers[id].user))))
    case Elapse(ms) => Some(Pass(ms))
    case _ => None
  }

  lemma StoreStepIsCommand(ttl: int, s: State, e: Step)
    requires Enabled(s, e) && (e.WriteToken? || e.Redeem? || e.CleanIndex? || e.RevokeOne? || e.Elapse?)
    ensures var c := CommandOf(ttl, s, e); c.Some? && Apply(ttl, s, e).redis == Execute(s.redis, c.value)
  {
    match e {
      case WriteToken(_) =>
      case Redeem(_, _) =>
      case CleanIndex(_, _) =>
      case RevokeOne(_) =>
      case Elapse(_) =>
    }
  }

  lemma OtherStepIsNone(ttl: int, s: State, e: Step)
    requires Enabled(s, e) && !e.RevokeKey?
    requires !(e.WriteToken? || e.Redeem? || e.CleanIndex? || e.RevokeOne? || e.Elapse?)
    ensures CommandOf(ttl, s, e) == None && Apply(ttl, s, e).redis == s.redis
  {
  }

  lemma RevokeKeyIsCommand(ttl: int, s: State, id: nat, key: string)
    requires Enabled(s, RevokeKey(id, key)) && CallerKept(s, s.callers[id])
    ensures var user := s.callers[id].user;
      Apply(ttl, s, RevokeKey(id, key)).redis
        == Execute(s.redis, Revoke(user, TrimPrefix(key, UserRefreshKeyPrefix(user))))
  {
    TrimmedKey(s, id, key);
  }

  lemma StepIsCommand(ttl: int, s: State, e: Step)
    requires Enabled(s, e) && ActorKept(s, e)
    ensures var c := CommandOf(ttl, s, e);
      Apply(ttl, s, e).redis == if c.Some? then Execute(s.redis, c.value) else s.redis
  {
    match e {
      case RevokeKey(id, key) => RevokeKeyIsCommand(ttl, s, id, key);
      case WriteToken(_) => StoreStepIsCommand(ttl, s, e);
      case Redeem(_, _) => StoreStepIsCommand(ttl, s, e);
      case CleanIndex(_, _) => StoreStepIsCommand(ttl, s, e);
      case RevokeOne(_) => StoreStepIsCommand(ttl, s, e);
      case Elapse(_) => StoreStepIsCommand(ttl, s, e);
      case _ => OtherStepIsNone(ttl, s, e);
    }
  }

  lemma TrimmedKey(s: State, id: nat, key: string)
    requires Enabled(s, RevokeKey(id, key)) && CallerKept(s, s.callers[id])
    ensures var user := s.callers[id].user; UserRefreshKey(user, TrimPrefix(key, UserRefreshKeyPrefix(user))) == key
  {
    var user := s.callers[id].user;
    var token := BatchKey(s, id, key);
    PrefixSelectsUser(user, user, token, key);
  }

  lemma IssueIsFirst(ttl: int, s: State, id: nat)
    requires ttl > 0 && Reachable(ttl, s) && Enabled(s, WriteToken(id))
    ensures UsedEntry(s.redis, s.callers[id].token) == None && s.callers[id].token !in s.answered
  {
    ReachableKept(ttl, s);
    assert CallerKept(s, s.callers[id]) && TokenKept(s, s.callers[id].token);
  }

  /** Every step of every run moves each token as the abstract machine does, so the string keys add and lose nothing. */
  lemma ProtocolRefinesTokenMachine(ttl: int, s: State, e: Step, t: string)
    requires ttl > 0 && Reachable(ttl, s) && Enabled(s, e)
    ensures var c := CommandOf(ttl, s, e);
      Abstract(Apply(ttl, s, e).redis, t)
        == if c.Some? then AbstractStep(Abstract(s.redis, t), s.redis.now, t, c.value) else Abstract(s.redis, t)
  {
    ReachableKept(ttl, s);
    NeverLiveAndUsed(ttl, s);
    assert ActorKept(s, e);
    StepIsCommand(ttl, s, e);
    var c := CommandOf(ttl, s, e);
    if c.Some? {
      if e.WriteToken? { IssueIsFirst(ttl, s, e.id); }
      StoreRefinesTokenMachine(s.redis, c.value);
    }
  }

  /** A token answered OK is never live again. */
  lemma RedeemedStaysDead(ttl: int, s: State, t: string)
    requires ttl > 0 && Reachable(ttl, s) && t in s.answered
    ensures !Abstract(s.redis, t).Live?
  {
    ReachableKept(ttl, s);
    assert TokenKept(s, t);
  }

  /** The life of a token: absent, live by an issuing transaction, used by a redemption, and gone after five minutes. */
  lemma TokenLifeCycle(ttl: int, s: State, e: Step, t: string)
    requires ttl > 0 && Reachable(ttl, s) && Enabled(s, e)
    ensures var a, s' := Abstract(s.redis, t), Apply(ttl, s, e); var a' := Abstract(s'.redis, t);
      && (a'.Live? && a' != a ==> e.WriteToken? && s.callers[e.id].token == t && !a.Used?)
      && (a'.Used? && a' != a ==>
            a.Live? && a'.user == a.user && e.Redeem? && e.token == t && a'.until == s.redis.now + 300_000)
      && (a.Used? && a' != a ==> a' == Absent && e.Elapse? && s'.redis.now >= a.until)
      && (e.WriteToken? && s.callers[e.id].token == t ==> a' == Live(Text(s.callers[e.id].user), s.redis.now + ttl))
      && (e.Redeem? && e.token == t && a.Live? ==> a' == Used(a.user, s.redis.now + 300_000))
      && (e.RevokeOne? && e.token == t ==> !a'.Live?)
      && (e.Elapse? ==>
            s'.redis.now == s.redis.now + e.ms
            && a' == if a.Absent? || s.redis.now + e.ms < a.until then a else Absent)
  {
    ProtocolRefinesTokenMachine(ttl, s, e, t);
    if e.WriteToken? { IssueIsFirst(ttl, s, e.id); }
    if CommandOf(ttl, s, e).Some? {
      MachineMoves(Abstract(s.redis, t), s.redis.now, t, CommandOf(ttl, s, e).value);
    }
  }

  /** The moves of the abstract machine. */
  lemma MachineMoves(a: TokenState, now: int, t: string, c: Command)
    ensures var a' := AbstractStep(a, now, t, c);
      && (a'.Live? && a' != a ==> c.Issue? && c.token == t)
      && (a'.Used? && a' != a ==>
            a.Live? && a'.user == a.user && c.Redeem? && c.token == t && a'.until == now + 300_000)
      && (a.Used? && a' != a ==>
            (c.Issue? && c.token == t) || (a' == Absent && c.Pass? && now + c.elapsed >= a.until))
  {
  }

  // ---- lineages

  /** `d` comes from `a` by rotations. */
  ghost predicate Descends(issued: map<string, TokenInfo>, a: string, d: string)
    decreases if d in issued then issued[d].born else 0
  {
    d in issued
    && (d == a
        || match issued[d].parent
           case None => false
           case Some(p) => p in issued && issued[p].born < issued[d].born && Descends(issued, a, p))
  }

  lemma BranchesApart(s: State, t: string, t': string)
    requires LineageKept(s.issued, s.answered) && t in s.issued && t' in s.issued
    ensures t == t' || BranchKept(s.issued, s.answered, t, t')
  {
  }

  /** A token has at most one successor, and the tokens of a lineage have one owner. */
  lemma OneSuccessor(ttl: int, s: State, p: string, c: string, c': string)
    requires ttl > 0 && Reachable(ttl, s)
    requires c in s.issued && c' in s.issued && s.issued[c].parent == s.issued[c'].parent == Some(p)
    ensures c == c' && p in s.answered && p in s.issued && s.issued[p].owner == s.issued[c].owner
  {
    ReachableKept(ttl, s);
    BranchesApart(s, c, c');
    assert ParentKept(s.issued, s.answered, c);
  }

  lemma {:induction false} DescendantsShareOwner(s: State, a: string, d: string)
    requires LineageKept(s.issued, s.answered) && Descends(s.issued, a, d)
    ensures a in s.issued && s.issued[a].owner == s.issued[d].owner && s.issued[a].root == s.issued[d].root
    ensures a == d || s.issued[a].born < s.issued[d].born
    decreases s.issued[d].born
  {
    if d != a {
      assert ParentKept(s.issued, s.answered, d);
      DescendantsShareOwner(s, a, s.issued[d].parent.value);
    }
  }

  lemma {:induction false} DescentIsTransitive(issued: map<string, TokenInfo>, a: string, b: string, d: string)
    requires Descends(issued, a, b) && Descends(issued, b, d)
    ensures Descends(issued, a, d)
    decreases issued[d].born
  {
    if d != b {
      DescentIsTransitive(issued, a, b, issued[d].parent.value);
    }
  }

  /** Lineages never fork: two descendants of one token are descendant and ancestor of each other. */
  lemma {:induction false} LineageIsAChain(s: State, a: string, d: string, d': string)
    requires LineageKept(s.issued, s.answered) && Descends(s.issued, a, d) && Descends(s.issued, a, d')
    ensures Descends(s.issued, d, d') || Descends(s.issued, d', d)
    decreases s.issued[d].born + s.issued[d'].born
  {
    if a != d && a != d' && d != d' {
      DescendantsShareOwner(s, a, d);
      DescendantsShareOwner(s, a, d');
      var p, p' := s.issued[d].parent.value, s.issued[d'].parent.value;
      assert BranchKept(s.issued, s.answered, d, d');
      LineageIsAChain(s, a, p, p');
      if Descends(s.issued, p, p') {
        ChildOnPath(s, p, d, p', d');
      } else {
        ChildOnPath(s, p', d', p, d);
      }
    }
  }

  /** If `p'` descends from `p`, whose only child is `d`, then a child of `p'` descends from `d`. */
  lemma {:induction false} ChildOnPath(s: State, p: string, d: string, p': string, d': string)
    requires LineageKept(s.issued, s.answered) && d in s.issued && d' in s.issued && d != d'
    requires s.issued[d].parent == Some(p) && s.issued[d'].parent == Some(p') && Descends(s.issued, p, p')
    ensures Descends(s.issued, d, d')
    decreases s.issued[p'].born
  {
    assert BranchKept(s.issued, s.answered, d, d');
    assert ParentKept(s.issued, s.answered, d');
    if p' != d {
      assert p' != p;
      ChildOnPath(s, p, d, s.issued[p'].parent.value, p');
    }
  }

  // ---- revoking everything

  /** Each live token has an entry in its owner's index that expires no earlier than the token. */
  lemma IndexComplete(ttl: int, s: State, t: string)
    requires ttl > 0 && Reachable(ttl, s) && LiveEntry(s.redis, t).Some?
    ensures t in s.issued
    ensures var index := IndexEntry(s.redis, s.issued[t].owner, t);
      index.Some? && index.value.deadline >= LiveEntry(s.redis, t).value.deadline
  {
    ReachableKept(ttl, s);
    assert TokenKept(s, t);
  }

  lemma FinishedScan(s: State, id: nat, t: string)
    requires Inv(s) && Enabled(s, FinishRevoke(id))
    requires LiveEntry(s.redis, t).Some? && t in s.issued && s.issued[t].owner == s.callers[id].user
    ensures t in s.written && s.written[t] >= s.callers[id].since
  {
    assert TokenKept(s, t);
    var c := s.callers[id];
    assert CallerKept(s, c);
    assert UserRefreshKey(c.user, t) !in c.must + c.batch;
    assert !OldAndLive(s, c.user, c.since, t);
  }

  /**
   * When revoke-all returns nil, whatever ran beside it, only tokens whose issuing transaction ran after its last scan
   * began can still be live for the user.
   */
  lemma SurvivorsAreNew(ttl: int, s: State, id: nat, t: string)
    requires ttl > 0 && Reachable(ttl, s) && Enabled(s, FinishRevoke(id))
    requires LiveEntry(s.redis, t).Some? && t in s.issued && s.issued[t].owner == s.callers[id].user
    ensures t in s.written && s.written[t] >= s.callers[id].since
  {
    ReachableKept(ttl, s);
    FinishedScan(s, id, t);
  }

  ghost predicate WritesFor(s: State, e: Step, user: Uuid) {
    e.WriteToken? && e.id in s.callers && s.callers[e.id].Issuing? && s.callers[e.id].user == user
  }

  /** No issuing transaction for `user` runs. */
  ghost predicate QuietFor(ttl: int, s: State, es: seq<Step>, user: Uuid)
    requires LegalRun(ttl, s, es)
    decreases |es|
  {
    es == [] || (!WritesFor(s, es[0], user) && QuietFor(ttl, Apply(ttl, s, es[0]), es[1..], user))
  }

  /** All of the user's tokens were written before `mark`, and this caller's scan, if it has one, began after. */
  ghost predicate Settled(s: State, user: Uuid, mark: nat, id: nat) {
    && mark <= s.writes
    && (forall t :: t in s.issued && s.issued[t].owner == user && t in s.written ==> s.written[t] < mark)
    && (id in s.callers && s.callers[id].Revoking? ==> s.callers[id].since >= mark)
  }

  /** A scan that a step begins began now. */
  lemma ScansBeginNow(ttl: int, s: State, e: Step, id: nat)
    requires Enabled(s, e) && id in Apply(ttl, s, e).callers && Apply(ttl, s, e).callers[id].Revoking?
    ensures var since := Apply(ttl, s, e).callers[id].since;
      since == s.writes || (id in s.callers && s.callers[id].Revoking? && since == s.callers[id].since)
  {
  }

  lemma QuietWrites(ttl: int, s: State, e: Step, user: Uuid, t: string)
    requires Enabled(s, e) && ActorKept(s, e) && WritesKept(s) && !WritesFor(s, e, user)
    ensures var s' := Apply(ttl, s, e);
      t in s'.issued && s'.issued[t].owner == user && t in s'.written ==>
        t in s.issued && s.issued[t].owner == user && t in s.written && s'.written[t] == s.written[t]
  {
    StepGrows(ttl, s, e, t);
  }

  lemma QuietStep(ttl: int, s: State, e: Step, user: Uuid, mark: nat, id: nat)
    requires Enabled(s, e) && ActorKept(s, e) && WritesKept(s) && Settled(s, user, mark, id) && !WritesFor(s, e, user)
    ensures Settled(Apply(ttl, s, e), user, mark, id)
  {
    var s' := Apply(ttl, s, e);
    StepGrows(ttl, s, e, "");
    forall t | t in s'.issued && s'.issued[t].owner == user && t in s'.written ensures s'.written[t] < mark {
      QuietWrites(ttl, s, e, user, t);
    }
    if id in s'.callers && s'.callers[id].Revoking? { ScansBeginNow(ttl, s, e, id); }
  }

  lemma {:induction false} QuietRun(ttl: int, s: State, es: seq<Step>, user: Uuid, mark: nat, id: nat)
    requires ttl > 0 && Inv(s) && LegalRun(ttl, s, es) && Settled(s, user, mark, id) && QuietFor(ttl, s, es, user)
    ensures Inv(Run(ttl, s, es)) && Settled(Run(ttl, s, es), user, mark, id)
    decreases |es|
  {
    if es != [] {
      assert ActorKept(s, es[0]);
      QuietStep(ttl, s, es[0], user, mark, id);
      StepKept(ttl, s, es[0]);
      QuietRun(ttl, Apply(ttl, s, es[0]), es[1..], user, mark, id);
    }
  }

  /** The step with which caller `id` begins a revoke-all for `user`, on its own account or after a REUSED answer. */
  ghost predicate BeginsRevoke(s: State, e: Step, id: nat, user: Uuid)
    requires Enabled(s, e)
  {
    e == StartRevoke(id, user) || (e == RevokeReused(id) && s.callers[id].user == user)
  }

  /**
   * A revoke-all that returns nil, with no issuing transaction for the user since it began, leaves the user no live
   * token, even if other callers redeem, revoke, log in as other users, or let time pass meanwhile.
   */
  lemma QuietRevokeLeavesNothing(ttl: int, s: State, e: Step, id: nat, user: Uuid, es: seq<Step>, t: string)
    requires ttl > 0 && Reachable(ttl, s) && Enabled(s, e) && BeginsRevoke(s, e, id, user)
    requires LegalRun(ttl, Apply(ttl, s, e), es) && QuietFor(ttl, Apply(ttl, s, e), es, user)
    requires var end := Run(ttl, Apply(ttl, s, e), es);
      Enabled(end, FinishRevoke(id)) && end.callers[id].user == user && t in end.issued && end.issued[t].owner == user
    ensures LiveEntry(Run(ttl, Apply(ttl, s, e), es).redis, t) == None
  {
    ReachableKept(ttl, s);
    var s1 := Apply(ttl, s, e);
    StepKept(ttl, s, e);
    QuietRun(ttl, s1, es, user, s.writes, id);
    var end := Run(ttl, s1, es);
    if LiveEntry(end.redis, t).Some? {
      FinishedScan(end, id, t);
    }
  }

  /** Revoking one key of a user leaves other users' tokens and index entries, and every tombstone, as they were. */
  lemma RevokeSparesOthers(ttl: int, s: State, id: nat, key: string, t: string)
    requires ttl > 0 && Reachable(ttl, s) && Enabled(s, RevokeKey(id, key))
    ensures var s' := Apply(ttl, s, RevokeKey(id, key));
      && UsedEntry(s'.redis, t) == UsedEntry(s.redis, t)
      && (t in s.issued && s.issued[t].owner != s.callers[id].user ==>
            LiveEntry(s'.redis, t) == LiveEntry(s.redis, t)
            && IndexEntry(s'.redis, s.issued[t].owner, t) == IndexEntry(s.redis, s.issued[t].owner, t))
  {
    ReachableKept(ttl, s);
    var user := s.callers[id].user;
    assert CallerKept(s, s.callers[id]);
    var token := BatchKey(s, id, key);
    RevokeEffect(s.redis, user, token, t, if t in s.issued then s.issued[t].owner else user);
  }

  /**
   * When a revoke-all for the owner of a token returns nil, every token rotated from it, however far down, is dead or
   * was written after the scan began.
   */
  lemma RevokeKillsDescendants(ttl: int, s: State, id: nat, a: string, d: string)
    requires ttl > 0 && Reachable(ttl, s) && Enabled(s, FinishRevoke(id))
    requires Descends(s.issued, a, d) && a in s.issued && s.callers[id].user == s.issued[a].owner
    ensures LiveEntry(s.redis, d).Some? ==> d in s.written && s.written[d] >= s.callers[id].since
  {
    ReachableKept(ttl, s);
    DescendantsShareOwner(s, a, d);
    if LiveEntry(s.redis, d).Some? {
      FinishedScan(s, id, d);
    }
  }

  /** A caller told REUSED has the owner of the token from the reply, and its scan is for that owner's index. */
  lemma ReusedAnswerRevokesOwner(ttl: int, s: State, a: string, id: nat)
    requires ttl > 0 && Reachable(ttl, s) && Enabled(s, Step.Redeem(a, Some(id))) && RedeemReply(s.redis, a).Reused?
    ensures a in s.issued && a in s.answered
    ensures var s1, owner := Apply(ttl, s, Step.Redeem(a, Some(id))), s.issued[a].owner;
      && id in s1.callers && s1.callers[id] == Caught(owner, a)
      && Apply(ttl, s1, RevokeReused(id)).callers[id]
        == Revoking(owner, Some(a), s.writes, IndexKeys(s.redis, owner), {})
  {
    ReachableKept(ttl, s);
    assert TokenKept(s, a);
    ReusedNamesOwner(s, a);
    CaughtByReply(ttl, s, a, id, s.issued[a].owner);
    ScanByCaught(ttl, s.(callers := s.callers[id := Caught(s.issued[a].owner, a)]), id);
  }

  lemma CaughtByReply(ttl: int, s: State, a: string, id: nat, user: Uuid)
    requires Enabled(s, Step.Redeem(a, Some(id))) && RedeemReply(s.redis, a).Reused?
    requires Parse(RedeemReply(s.redis, a).user) == Some(user)
    ensures Apply(ttl, s, Step.Redeem(a, Some(id))) == s.(callers := s.callers[id := Caught(user, a)])
  {
    assert RedeemTx(s.redis, a) == s.redis;
  }

  lemma ScanByCaught(ttl: int, s: State, id: nat)
    requires Enabled(s, RevokeReused(id))
    ensures var c := s.callers[id];
      Apply(ttl, s, RevokeReused(id)).callers[id]
        == Revoking(c.user, Some(c.token), s.writes, IndexKeys(s.redis, c.user), {})
  {
  }

  /**
   * When the revoke-all set off by the REUSED answer for `a` returns nil, whatever ran beside it, every token rotated
   * from `a` is dead or was written after the scan began.
   */
  lemma ReuseKillsDescendants(ttl: int, s: State, id: nat, a: string, d: string)
    requires ttl > 0 && Reachable(ttl, s) && Enabled(s, FinishRevoke(id)) && s.callers[id].cause == Some(a)
    requires Descends(s.issued, a, d)
    ensures a in s.issued && a in s.answered && s.callers[id].user == s.issued[a].owner
    ensures LiveEntry(s.redis, d).Some? ==> d in s.written && s.written[d] >= s.callers[id].since
  {
    ReachableKept(ttl, s);
    assert CallerKept(s, s.callers[id]);
    RevokeKillsDescendants(ttl, s, id, a, d);
  }

  /** In every reachable state the index is complete and names each owner's tokens only. */
  lemma ReachableIsIndexed(ttl: int, s: State)
    requires ttl > 0 && Reachable(ttl, s)
    ensures JwtServices.Indexed(s.redis)
  {
    ReachableKept(ttl, s);
    forall t | LiveEntry(s.redis, t).Some? ensures exists u :: JwtServices.OwnedBy(s.redis, t, u) {
      assert TokenKept(s, t);
      assert JwtServices.OwnedBy(s.redis, t, s.issued[t].owner);
    }
    forall t, u | LiveEntry(s.redis, t).Some? && IndexEntry(s.redis, u, t).Some?
      ensures LiveEntry(s.redis, t).value.value == Text(u)
    {
      assert TokenKept(s, t) && IndexKept(s, u, t);
    }
  }

  /**
   * Whatever a call is answered in a reachable state, REUSED names the owner of the token; and a token answered REUSED
   * by the script is so answered to the caller however many replies were lost, with the store as it was.
   */
  lemma ReusedResultIsOwners(ttl: int, s: State, a: string, call: JwtServices.Call)
    requires ttl > 0 && Reachable(ttl, s)
    ensures var result := JwtServices.RedeemResult(s.redis, a, call);
      result.Success? && result.value.RedemptionReused? ==> a in s.issued && result.value.user == s.issued[a].owner
    ensures RedeemReply(s.redis, a).Reused? && call.Answered? ==>
      && a in s.issued && a in s.answered && JwtServices.Consumed(s.redis, a, call) == s.redis
      && JwtServices.RedeemResult(s.redis, a, call)
        == JwtServices.Success(JwtServices.RedemptionReused(s.issued[a].owner))
  {
    ReachableKept(ttl, s);
    assert TokenKept(s, a);
    match RedeemReply(s.redis, a) {
      case OK(_) => RedeemOKIsFirst(s, a);
      case Reused(_) => ReusedNamesOwner(s, a);
      case Invalid =>
    }
  }

  lemma OwnersDiffer(ttl: int, s: State, d: string, user: Uuid)
    requires ttl > 0 && Reachable(ttl, s) && d in s.issued && LiveEntry(s.redis, d).Some?
    ensures LiveEntry(s.redis, d).value.value == Text(user) <==> s.issued[d].owner == user
  {
    ReachableKept(ttl, s);
    assert TokenKept(s, d);
    ParseRoundTrip(user);
    ParseRoundTrip(s.issued[d].owner);
  }

  /**
   * What a revoke-all does after a redemption of `a`: carried out in full it kills every token of the user, and even
   * half finished no other user's token.
   */
  lemma PurgeAfterRedeem(ttl: int, s: State, a: string, call: JwtServices.Call, user: Uuid, keys: set<string>,
      d: string)
    requires ttl > 0 && Reachable(ttl, s) && a in s.issued && user == s.issued[a].owner && d in s.issued
    requires keys <= IndexKeys(JwtServices.Consumed(s.redis, a, call), user)
    ensures var r0 := JwtServices.Consumed(s.redis, a, call); var r' := JwtServices.Purge(r0, user, keys);
      && (s.issued[d].owner == user && keys == IndexKeys(r0, user) ==> LiveEntry(r', d) == None)
      && (s.issued[d].owner != user ==> LiveEntry(r', d) == LiveEntry(s.redis, d))
  {
    var r0 := JwtServices.Consumed(s.redis, a, call);
    ReachableIsIndexed(ttl, s);
    JwtServices.RedeemKeepsIndexed(s.redis, a);
    RedeemEffect(s.redis, a, d, user);
    if LiveEntry(s.redis, d).Some? {
      OwnersDiffer(ttl, s, d, user);
    }
    if s.issued[d].owner == user {
      JwtServices.PurgeAllKillsExactlyTheUsers(r0, user, d);
    } else {
      JwtServices.PurgeEffect(r0, user, keys, d, user);
      JwtServices.VisibleIndexKey(r0, user, d);
      if LiveEntry(r0, d).Some? {
        JwtServices.IndexedToken(r0, user, d);
      }
    }
  }

  /**
   * Run without interference from a reachable state: a refresh that is answered REUSED for `a` - because the token was
   * redeemed before, or because the reply to its one redemption was lost - names the owner of `a`, and the completed
   * revoke-all kills every descendant of `a`, and no other user's token.
   */
  lemma SequentialReuseKillsLineage(ttl: int, s: State, a: string, call: JwtServices.Call, user: Uuid, d: string)
    requires ttl > 0 && Reachable(ttl, s) && d in s.issued
    requires JwtServices.RedeemResult(s.redis, a, call) == JwtServices.Success(JwtServices.RedemptionReused(user))
    ensures a in s.issued && user == s.issued[a].owner
    ensures var r0 := JwtServices.Consumed(s.redis, a, call);
      var r' := JwtServices.Purge(r0, user, IndexKeys(r0, user));
      && (Descends(s.issued, a, d) ==> LiveEntry(r', d) == None)
      && (s.issued[d].owner != user ==> LiveEntry(r', d) == LiveEntry(s.redis, d))
  {
    ReusedResultIsOwners(ttl, s, a, call);
    PurgeAfterRedeem(ttl, s, a, call, user, IndexKeys(JwtServices.Consumed(s.redis, a, call), user), d);
    if Descends(s.issued, a, d) {
      ReachableKept(ttl, s);
      DescendantsShareOwner(s, a, d);
    }
  }

  /**
   * The refresh use case itself, on a store in a reachable state. When it is answered REUSED it is refused, the reuse
   * is recorded for the owner, other users keep their tokens, and if its revoke-all succeeds the whole lineage is dead.
   * Finished or not, it leaves the owner no session exactly when it got to the index key of every live token.
   */
  method ExecuteOnReused(ghost ttl: int, ghost s: State, refresh: JwtServices.RefreshToken, token: string, next: string,
      redeem: JwtServices.Call, cleaned: bool, runs: seq<(nat, nat -> set<string>, nat)>, issue: JwtServices.Call)
    returns (r: JwtServices.Result<string>, ghost revoked: set<string>, ghost all: bool)
    requires ttl > 0 && Reachable(ttl, s) && refresh.tokens.redis == s.redis
    requires var result := JwtServices.RedeemResult(s.redis, token, redeem);
      result.Success? && result.value.RedemptionReused?
    modifies refresh, refresh.tokens
    ensures token in s.issued && r == JwtServices.Failure(JwtServices.ErrInvalidCredentials)
    ensures refresh.audit == old(refresh.audit) + [JwtServices.ReuseDetected(s.issued[token].owner)]
    ensures all ==> forall d :: Descends(s.issued, token, d) ==> LiveEntry(refresh.tokens.redis, d) == None
    ensures var r0, user := JwtServices.Consumed(s.redis, token, redeem), s.issued[token].owner;
      JwtServices.NoSession(refresh.tokens.redis, user)
      <==> forall d :: LiveEntry(r0, d).Some? && LiveEntry(r0, d).value.value == Text(user) ==>
             UserRefreshKey(user, d) in revoked
    ensures forall d :: d in s.issued && s.issued[d].owner != s.issued[token].owner ==>
      LiveEntry(refresh.tokens.redis, d) == LiveEntry(s.redis, d)
  {
    r, revoked, all := refresh.Execute(token, next, redeem, cleaned, runs, issue);
    ReusedResultIsOwners(ttl, s, token, redeem);
    ghost var user := s.issued[token].owner;
    JwtServices.SessionsEndIff(JwtServices.Consumed(s.redis, token, redeem), user, revoked);
    forall d | d in s.issued && s.issued[d].owner != user
      ensures LiveEntry(refresh.tokens.redis, d) == LiveEntry(s.redis, d)
    {
      PurgeAfterRedeem(ttl, s, token, redeem, user, revoked, d);
    }
    if all {
      forall d | Descends(s.issued, token, d) ensures LiveEntry(refresh.tokens.redis, d) == None {
        SequentialReuseKillsLineage(ttl, s, token, redeem, user, d);
      }
    }
  }

  // ---- conservation of sessions

  /** The user's tokens that are live or about to be written. */
  ghost function Sessions(s: State, user: Uuid): set<string> {
    set t | t in s.issued && s.issued[t].owner == user && (LiveEntry(s.redis, t).Some? || InFlight(s, t))
  }

  /** The user's refreshes that have redeemed and not yet begun to reissue. */
  ghost function Refreshing(s: State, user: Uuid): set<nat> {
    set id | id in s.callers && s.callers[id].Redeemed? && s.callers[id].user == user
  }

  ghost function Roots(s: State, user: Uuid): set<string> {
    set t | t in s.issued && s.issued[t].owner == user && s.issued[t].parent == None
  }

  lemma SessionsUnanswered(s: State, user: Uuid)
    requires Inv(s)
    ensures forall t :: t in Sessions(s, user) ==> t !in s.answered
  {
    forall t | t in Sessions(s, user) ensures t !in s.answered {
      assert TokenKept(s, t);
      if InFlight(s, t) {
        var id :| id in s.callers && s.callers[id].Issuing? && s.callers[id].token == t;
        assert CallerKept(s, s.callers[id]);
      }
    }
  }

  /** Sessions have roots of their own, whose lineages hold an unredeemed token. */
  lemma SessionRoots(s: State, user: Uuid) returns (roots: set<string>)
    requires Inv(s)
    ensures |roots| == |Sessions(s, user)| && roots <= Roots(s, user)
    ensures forall r :: r in roots ==> exists t :: t in s.issued && t !in s.answered && s.issued[t].root == r
  {
    var f := (t: string) => if t in s.issued then s.issued[t].root else "";
    roots := set t | t in Sessions(s, user) :: f(t);
    SessionsUnanswered(s, user);
    forall t, t' | t in Sessions(s, user) && t' in Sessions(s, user) && f(t) == f(t') ensures t == t' {
      BranchesApart(s, t, t');
    }
    InjectiveImageSize(Sessions(s, user), roots, f);
    forall r | r in roots
      ensures r in Roots(s, user) && exists t :: t in s.issued && t !in s.answered && s.issued[t].root == r
    {
      var t :| t in Sessions(s, user) && f(t) == r;
      assert RootKept(s.issued, t);
    }
  }

  lemma RefreshesApart(s: State, id: nat, id': nat)
    requires Inv(s) && id in s.callers && id' in s.callers && s.callers[id].Redeemed? && s.callers[id'].Redeemed?
    ensures s.callers[id].token in s.issued && s.callers[id'].token in s.issued
    ensures id == id' || s.issued[s.callers[id].token].root != s.issued[s.callers[id'].token].root
  {
    assert CallerKept(s, s.callers[id]) && CallerKept(s, s.callers[id']);
    assert id == id' || CallersApart(s, s.callers[id], s.callers[id']);
  }

  /** Refreshes under way have roots of their own, whose lineages hold no unredeemed token. */
  lemma RefreshingRoots(s: State, user: Uuid) returns (roots: set<string>)
    requires Inv(s)
    ensures |roots| == |Refreshing(s, user)| && roots <= Roots(s, user)
    ensures forall r :: r in roots ==> forall t :: t in s.issued && s.issued[t].root == r ==> t in s.answered
  {
    var g := (id: nat) => if id in s.callers && s.callers[id].Redeemed? && s.callers[id].token in s.issued
                          then s.issued[s.callers[id].token].root else "";
    roots := set id | id in Refreshing(s, user) :: g(id);
    forall id, id' | id in Refreshing(s, user) && id' in Refreshing(s, user) && g(id) == g(id') ensures id == id' {
      RefreshesApart(s, id, id');
    }
    InjectiveImageSize(Refreshing(s, user), roots, g);
    forall r | r in roots
      ensures r in Roots(s, user) && forall t :: t in s.issued && s.issued[t].root == r ==> t in s.answered
    {
      var id :| id in Refreshing(s, user) && g(id) == r;
      assert CallerKept(s, s.callers[id]);
      assert RootKept(s.issued, s.callers[id].token);
    }
  }

  lemma SessionsFitRoots(s: State, user: Uuid)
    requires Inv(s)
    ensures |Sessions(s, user)| + |Refreshing(s, user)| <= |Roots(s, user)|
  {
    var a := SessionRoots(s, user);
    var b := RefreshingRoots(s, user);
    assert a !! b;
    SubsetSize(a + b, Roots(s, user));
  }

  /** Issues started for `user` by logging in or registering. */
  function Logins(es: seq<Step>, user: Uuid): nat {
    if es == [] then 0 else (if es[0].Login? && es[0].user == user then 1 else 0) + Logins(es[1..], user)
  }

  lemma RootMember(ttl: int, s: State, e: Step, user: Uuid, t: string)
    requires Enabled(s, e)
    ensures t in Roots(Apply(ttl, s, e), user) <==> t in Roots(s, user) || (e.Login? && e.user == user && t == e.token)
  {
    StepGrows(ttl, s, e, t);
  }

  lemma RootsStep(ttl: int, s: State, e: Step, user: Uuid)
    requires Enabled(s, e)
    ensures |Roots(Apply(ttl, s, e), user)| == |Roots(s, user)| + if e.Login? && e.user == user then 1 else 0
  {
    var before, after := Roots(s, user), Roots(Apply(ttl, s, e), user);
    var added: set<string> := if e.Login? && e.user == user then {e.token} else {};
    forall t ensures t in after <==> t in before + added { RootMember(ttl, s, e, user, t); }
    assert before !! added;
    SameMembers(after, before + added);
  }

  lemma SameMembers(a: set<string>, b: set<string>)
    requires forall t :: t in a <==> t in b
    ensures a == b
  {
  }

  lemma {:induction false} RootsCountLogins(ttl: int, s: State, es: seq<Step>, user: Uuid)
    requires LegalRun(ttl, s, es)
    ensures |Roots(Run(ttl, s, es), user)| == |Roots(s, user)| + Logins(es, user)
    decreases |es|
  {
    if es != [] {
      RootsStep(ttl, s, es[0], user);
      RootsCountLogins(ttl, Apply(ttl, s, es[0]), es[1..], user);
    }
  }

  /**
   * In every run, a user's live tokens, issues under way and refreshes between redeeming and reissuing never number
   * more than the logins and registrations of that user: rotation, retries and replays create no session.
   */
  lemma SessionConservation(ttl: int, es: seq<Step>, user: Uuid)
    requires ttl > 0 && LegalRun(ttl, START, es)
    ensures var s := Run(ttl, START, es); |Sessions(s, user)| + |Refreshing(s, user)| <= Logins(es, user)
  {
    StartKept();
    RunKept(ttl, START, es);
    SessionsFitRoots(Run(ttl, START, es), user);
    RootsCountLogins(ttl, START, es, user);
    assert Roots(START, user) == {};
  }
}
