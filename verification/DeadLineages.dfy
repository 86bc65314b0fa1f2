/** When a lineage of refresh tokens is dead for good. */
module DeadLineages {
  import opened Common
  import opened Uuids
  import opened RedisStore
  import opened RefreshProtocol
  import opened RefreshGuarantees
  import Runs = RefreshRuns

  /** No token of the lineage is live. */
  ghost predicate NoneLive(s: State, root: string) {
    forall t :: t in s.issued && s.issued[t].root == root ==> LiveEntry(s.redis, t) == None
  }

  /** The caller is about to write a token of the lineage. */
  ghost predicate Extends(s: State, c: Caller, root: string) {
    (c.Issuing? || c.Redeemed?) && c.token in s.issued && s.issued[c.token].root == root
  }

  /** No caller is issuing, or has redeemed and not yet reissued, a token of the lineage. */
  ghost predicate NonePending(s: State, root: string) {
    forall id :: id in s.callers ==> !Extends(s, s.callers[id], root)
  }

  /** A token that comes to life is the one whose issuing transaction ran. */
  lemma LiveByIssue(ttl: int, s: State, e: Step, t: string)
    requires ttl > 0 && TokenKept(s, t) && Enabled(s, e) && ActorKept(s, e) && WritesKept(s)
    ensures LiveEntry(Apply(ttl, s, e).redis, t).Some? ==>
      t in s.issued && (LiveEntry(s.redis, t).Some? || (e.WriteToken? && Extends(s, s.callers[e.id], s.issued[t].root)))
  {
    StepLive(ttl, s, e, t);
  }

  lemma StepNoneLive(ttl: int, s: State, e: Step, root: string)
    requires ttl > 0 && Inv(s) && Enabled(s, e) && root in s.issued && NoneLive(s, root) && NonePending(s, root)
    ensures NoneLive(Apply(ttl, s, e), root)
  {
    var s' := Apply(ttl, s, e);
    assert ActorKept(s, e);
    forall t | t in s'.issued && s'.issued[t].root == root ensures LiveEntry(s'.redis, t) == None {
      assert TokenKept(s, t);
      StepGrows(ttl, s, e, t);
      LiveByIssue(ttl, s, e, t);
    }
  }

  /** The record of a caller after a step, if it extends the lineage, was there before or is made by a live token. */
  lemma StepPending(ttl: int, s: State, e: Step, root: string, id: nat)
    requires ttl > 0 && Inv(s) && Enabled(s, e) && root in s.issued && NoneLive(s, root) && NonePending(s, root)
    requires id in Apply(ttl, s, e).callers
    ensures !Extends(Apply(ttl, s, e), Apply(ttl, s, e).callers[id], root)
  {
    if id in s.callers {
      assert !Extends(s, s.callers[id], root);
      assert CallerKept(s, s.callers[id]);
    }
    if e.Redeem? && RedeemReply(s.redis, e.token).OK? {
      RedeemOKIsFirst(s, e.token);
      assert LiveEntry(s.redis, e.token).Some? by { RedeemEffect(s.redis, e.token, e.token, s.issued[e.token].owner); }
    }
    PendingByStep(ttl, s, e, root, id);
  }

  lemma PendingByRedeem(s: State, token: string, receiver: Option<nat>, reply: Reply, root: string, id: nat)
    requires var s' := Answered(s, token, receiver, reply); id in s'.callers
    requires id in s.callers ==> !Extends(s, s.callers[id], root)
    requires receiver.Some? ==> receiver.value !in s.callers
    requires reply.OK? ==> token in s.issued && s.issued[token].root != root
    ensures var s' := Answered(s, token, receiver, reply); !Extends(s', s'.callers[id], root)
  {
  }

  lemma PendingByIssue(ttl: int, s: State, e: Step, root: string, id: nat)
    requires Enabled(s, e) && (e.Login? || e.Reissue?) && root in s.issued && id in Apply(ttl, s, e).callers
    requires id in s.callers ==> !Extends(s, s.callers[id], root) && CallerKept(s, s.callers[id])
    ensures !Extends(Apply(ttl, s, e), Apply(ttl, s, e).callers[id], root)
  {
  }

  lemma PendingByStep(ttl: int, s: State, e: Step, root: string, id: nat)
    requires Enabled(s, e) && root in s.issued && id in Apply(ttl, s, e).callers
    requires id in s.callers ==> !Extends(s, s.callers[id], root) && CallerKept(s, s.callers[id])
    requires e.Redeem? && RedeemReply(s.redis, e.token).OK? ==> e.token in s.issued && s.issued[e.token].root != root
    ensures !Extends(Apply(ttl, s, e), Apply(ttl, s, e).callers[id], root)
  {
    match e {
      case Login(_, _, _) => PendingByIssue(ttl, s, e, root, id);
      case Reissue(_, _) => PendingByIssue(ttl, s, e, root, id);
      case Redeem(token, receiver) =>
        var reply := RedeemReply(s.redis, token);
        PendingByRedeem(s.(redis := RedeemTx(s.redis, token)), token, receiver, reply, root, id);
      case _ =>
        if id in s.callers { RecordStays(ttl, s, e, id); }
    }
  }

  /** Dead and with nobody to extend it, a lineage stays so, whatever runs. */
  lemma {:induction false} RunDead(ttl: int, s: State, es: seq<Step>, root: string)
    requires ttl > 0 && Inv(s) && LegalRun(ttl, s, es)
    requires root in s.issued && NoneLive(s, root) && NonePending(s, root)
    ensures NoneLive(Run(ttl, s, es), root) && NonePending(Run(ttl, s, es), root)
    decreases |es|
  {
    if es != [] {
      var s' := Apply(ttl, s, es[0]);
      StepKept(ttl, s, es[0]);
      StepGrows(ttl, s, es[0], root);
      StepNoneLive(ttl, s, es[0], root);
      forall id | id in s'.callers ensures !Extends(s', s'.callers[id], root) { StepPending(ttl, s, es[0], root, id); }
      RunDead(ttl, s', es[1..], root);
    }
  }

  // ---- and the other way round

  /** A text longer than all in the set. */
  lemma {:induction false} FreshText(texts: set<string>) returns (t: string)
    ensures forall x :: x in texts ==> |x| < |t|
  {
    if texts == {} {
      t := "";
    } else {
      var x :| x in texts;
      var t' := FreshText(texts - {x});
      t := t' + x + "x";
    }
  }

  lemma WriteRevives(ttl: int, s: State, id: nat)
    requires ttl > 0 && id in s.callers && s.callers[id].Issuing?
    ensures Enabled(s, WriteToken(id))
    ensures var s' := Apply(ttl, s, WriteToken(id));
      LiveEntry(s'.redis, s.callers[id].token).Some? && s'.issued == s.issued
  {
    var c := s.callers[id];
    IssueEffect(s.redis, c.user, c.token, ttl, c.token, c.user);
  }

  /** A caller that extends the lineage can give it a live token, by one step or two. */
  lemma PendingRevives(ttl: int, s: State, root: string, id: nat) returns (es: seq<Step>)
    requires ttl > 0 && id in s.callers && Extends(s, s.callers[id], root)
    ensures LegalRun(ttl, s, es) && !NoneLive(Run(ttl, s, es), root)
  {
    var c := s.callers[id];
    if c.Issuing? {
      WriteRevives(ttl, s, id);
      Runs.OneStep(ttl, s, WriteToken(id));
      es := [WriteToken(id)];
    } else {
      var t := FreshText(s.issued.Keys);
      assert t !in s.issued;
      var m := Apply(ttl, s, Reissue(id, t));
      assert m.issued[t].root == root && m.callers[id] == Issuing(c.user, t);
      WriteRevives(ttl, m, id);
      Runs.OneStep(ttl, s, Reissue(id, t));
      Runs.ThenStep(ttl, s, [Reissue(id, t)], m, WriteToken(id));
      es := [Reissue(id, t)] + [WriteToken(id)];
    }
  }

  /** No run from here ever gives the lineage a live token. */
  ghost predicate DeadForGood(ttl: int, s: State, root: string) {
    forall es :: LegalRun(ttl, s, es) ==> NoneLive(Run(ttl, s, es), root)
  }

  /**
   * A lineage is dead for good exactly when none of its tokens is live and no caller is issuing one or has redeemed one
   * and not yet reissued.
   */
  lemma DeadForGoodIff(ttl: int, s: State, root: string)
    requires ttl > 0 && Reachable(ttl, s) && root in s.issued
    ensures DeadForGood(ttl, s, root) <==> NoneLive(s, root) && NonePending(s, root)
  {
    ReachableKept(ttl, s);
    if NoneLive(s, root) && NonePending(s, root) {
      forall es | LegalRun(ttl, s, es) ensures NoneLive(Run(ttl, s, es), root) { RunDead(ttl, s, es, root); }
    } else if !NoneLive(s, root) {
      assert LegalRun(ttl, s, []) && Run(ttl, s, []) == s;
    } else {
      var id :| id in s.callers && Extends(s, s.callers[id], root);
      var es := PendingRevives(ttl, s, root, id);
    }
  }

  /**
   * When the revoke-all set off by the reused token `a` returns nil, and no issuing transaction of the lineage ran
   * since its scan began, the lineage is dead for good exactly when no caller is about to extend it.
   */
  lemma RevokedLineageIsDead(ttl: int, s: State, id: nat, a: string)
    requires ttl > 0 && Reachable(ttl, s) && Enabled(s, FinishRevoke(id)) && s.callers[id].cause == Some(a)
    requires a in s.issued && forall t ::
      t in s.issued && s.issued[t].root == s.issued[a].root && t in s.written ==> s.written[t] < s.callers[id].since
    ensures DeadForGood(ttl, s, s.issued[a].root) <==> NonePending(s, s.issued[a].root)
  {
    ReachableKept(ttl, s);
    var root := s.issued[a].root;
    assert CallerKept(s, s.callers[id]) && RootKept(s.issued, a);
    forall t | t in s.issued && s.issued[t].root == root ensures LiveEntry(s.redis, t) == None {
      assert RootKept(s.issued, t);
      if LiveEntry(s.redis, t).Some? {
        FinishedScan(s, id, t);
      }
    }
    DeadForGoodIff(ttl, s, root);
  }

  // ---- a successor that survives

  lemma ReachNext(ttl: int, s: State, e: Step)
    requires Reachable(ttl, s) && Enabled(s, e)
    ensures Reachable(ttl, Apply(ttl, s, e))
  {
    var es :| LegalRun(ttl, START, es) && Run(ttl, START, es) == s;
    Runs.ThenStep(ttl, START, es, s, e);
  }

  lemma StartReachable(ttl: int)
    ensures Reachable(ttl, START)
  {
    assert LegalRun(ttl, START, []) && Run(ttl, START, []) == START;
  }

  /** A user has logged in with the token `a`. */
  function LoggedIn(ttl: int, user: Uuid, a: string): State {
    State(IssueTx(Redis(map[], 0), user, a, ttl), map[a := TokenInfo(user, a, None, 0)], 1, map[a := 0], [], map[])
  }

  lemma LogsIn(ttl: int, user: Uuid, a: string)
    ensures Reachable(ttl, LoggedIn(ttl, user, a))
  {
    StartReachable(ttl);
    ReachNext(ttl, START, Login(0, user, a));
    var s1 := Apply(ttl, START, Login(0, user, a));
    ReachNext(ttl, s1, WriteToken(0));
    var s2 := Apply(ttl, s1, WriteToken(0));
    ReachNext(ttl, s2, Leave(0));
    assert Apply(ttl, s2, Leave(0)) == LoggedIn(ttl, user, a);
  }

  /** Caller 0 redeems the token, and its index entry is cleaned. */
  function Rotating(ttl: int, user: Uuid, a: string): State {
    var s := LoggedIn(ttl, user, a);
    s.(redis := Del(RedeemTx(s.redis, a), UserRefreshKey(user, a)), answered := [a],
       callers := map[0 := Redeemed(user, a)])
  }

  lemma Rotates(ttl: int, user: Uuid, a: string)
    requires ttl > 0
    ensures Reachable(ttl, Rotating(ttl, user, a))
  {
    LogsIn(ttl, user, a);
    var s := LoggedIn(ttl, user, a);
    IssueEffect(Redis(map[], 0), user, a, ttl, a, user);
    RedeemEffect(s.redis, a, a, user);
    ParseRoundTrip(user);
    ReachNext(ttl, s, Step.Redeem(a, Some(0)));
    var s1 := Apply(ttl, s, Step.Redeem(a, Some(0)));
    assert s1 == s.(redis := RedeemTx(s.redis, a), answered := [a], callers := map[0 := Redeemed(user, a)]);
    ReachNext(ttl, s1, CleanIndex(user, a));
  }

  /** After that the token is a reused one, and the user's index is empty. */
  lemma RotatingStore(ttl: int, user: Uuid, a: string)
    requires ttl > 0
    ensures var r := Rotating(ttl, user, a).redis;
      RedeemReply(r, a) == Reused(Text(user)) && RedeemTx(r, a) == r && IndexKeys(r, user) == {}
  {
    var r0 := LoggedIn(ttl, user, a).redis;
    var r := Rotating(ttl, user, a).redis;
    IssueEffect(Redis(map[], 0), user, a, ttl, a, user);
    RedeemEffect(r0, a, a, user);
    DelIndexEffect(RedeemTx(r0, a), user, a, a, user);
    RedeemEffect(r, a, a, user);
    forall k | k in IndexKeys(r, user) ensures false {
      var t := TrimPrefix(k, UserRefreshKeyPrefix(user));
      PrefixSelectsUser(user, user, t, k);
      IssueEffect(Redis(map[], 0), user, a, ttl, t, user);
      RedeemEffect(r0, a, t, user);
      DelIndexEffect(RedeemTx(r0, a), user, a, t, user);
    }
  }

  /** The token is presented again, and the revoke-all this sets off has only to return. */
  function Revoked(ttl: int, user: Uuid, a: string): State {
    var s := Rotating(ttl, user, a);
    s.(callers := map[0 := Redeemed(user, a), 1 := Revoking(user, Some(a), 1, {}, {})])
  }

  /** A token is presented again while its owner's index is empty: the scan has nothing to return. */
  lemma ReuseOnEmptyIndex(ttl: int, s: State, a: string, id: nat, user: Uuid) returns (s': State)
    requires Reachable(ttl, s) && id !in s.callers && !InFlight(s, a)
    requires RedeemReply(s.redis, a) == Reused(Text(user)) && IndexKeys(s.redis, user) == {}
    ensures Reachable(ttl, s') && s' == s.(callers := s.callers[id := Revoking(user, Some(a), s.writes, {}, {})])
  {
    ParseRoundTrip(user);
    ReachNext(ttl, s, Step.Redeem(a, Some(id)));
    CaughtByReply(ttl, s, a, id, user);
    var m := s.(callers := s.callers[id := Caught(user, a)]);
    ReachNext(ttl, m, RevokeReused(id));
    s' := Apply(ttl, m, RevokeReused(id));
    Runs.SetTwice(s.callers, id, Caught(user, a), Revoking(user, Some(a), s.writes, {}, {}));
  }

  lemma Revokes(ttl: int, user: Uuid, a: string)
    requires ttl > 0
    ensures Reachable(ttl, Revoked(ttl, user, a))
  {
    Rotates(ttl, user, a);
    RotatingStore(ttl, user, a);
    var s' := ReuseOnEmptyIndex(ttl, Rotating(ttl, user, a), a, 1, user);
  }

  lemma ChildDescends(issued: map<string, TokenInfo>, a: string, b: string)
    requires a in issued && b in issued && issued[b].parent == Some(a) && issued[a].born < issued[b].born
    ensures Descends(issued, a, b)
  {
    assert Descends(issued, a, a);
  }

  /** A redeemed caller reissues, and its transaction runs. */
  lemma Reissued(ttl: int, s: State, id: nat, a: string, b: string)
    requires ttl > 0 && a in s.issued && b !in s.issued && s.issued[a].born < |s.issued|
    requires id in s.callers && s.callers[id].Redeemed? && s.callers[id].token == a
    ensures Enabled(s, Reissue(id, b)) && Enabled(Apply(ttl, s, Reissue(id, b)), WriteToken(id))
    ensures var s' := Apply(ttl, Apply(ttl, s, Reissue(id, b)), WriteToken(id));
      Descends(s'.issued, a, b) && LiveEntry(s'.redis, b).Some?
  {
    var m := Apply(ttl, s, Reissue(id, b));
    assert m.callers[id] == Issuing(s.callers[id].user, b);
    ChildDescends(m.issued, a, b);
    WriteRevives(ttl, m, id);
  }

  /** Whatever the store: a redeemed caller goes on after a revoke-all for its token has returned nil. */
  lemma GoesOn(ttl: int, s: State, user: Uuid, a: string, b: string)
    requires ttl > 0 && a in s.issued && b !in s.issued && s.issued[a].born < |s.issued|
    requires s.callers == map[0 := Redeemed(user, a), 1 := Revoking(user, Some(a), 1, {}, {})]
    ensures Enabled(s, FinishRevoke(1)) && s.callers[1].cause == Some(a)
    ensures var es := [FinishRevoke(1), Reissue(0, b), WriteToken(0)];
      LegalRun(ttl, s, es)
      && var s' := Run(ttl, s, es); Descends(s'.issued, a, b) && LiveEntry(s'.redis, b).Some?
  {
    var s1 := Apply(ttl, s, FinishRevoke(1));
    Reissued(ttl, s1, 0, a, b);
    ThreeSteps(ttl, s, FinishRevoke(1), s1, Reissue(0, b), Apply(ttl, s1, Reissue(0, b)), WriteToken(0));
  }

  lemma ThreeSteps(ttl: int, s: State, e1: Step, s1: State, e2: Step, s2: State, e3: Step)
    requires Enabled(s, e1) && s1 == Apply(ttl, s, e1) && Enabled(s1, e2) && s2 == Apply(ttl, s1, e2) && Enabled(s2, e3)
    ensures LegalRun(ttl, s, [e1, e2, e3]) && Run(ttl, s, [e1, e2, e3]) == Apply(ttl, s2, e3)
  {
    Runs.OneStep(ttl, s, e1);
    Runs.ThenStep(ttl, s, [e1], s1, e2);
    Runs.ThenStep(ttl, s, [e1] + [e2], s2, e3);
    assert [e1] + [e2] + [e3] == [e1, e2, e3];
  }

  /**
   * A run in which a successor survives: the revoke-all set off by the reuse of `a` returns nil, and then the caller
   * that had redeemed `a` goes on to reissue. Its token `b` descends from `a` and is live.
   */
  lemma ReissueSurvives(ttl: int, user: Uuid, a: string, b: string) returns (s: State)
    requires ttl > 0 && a != b
    ensures Reachable(ttl, s) && Enabled(s, FinishRevoke(1)) && s.callers[1].cause == Some(a)
    ensures var es := [FinishRevoke(1), Reissue(0, b), WriteToken(0)];
      LegalRun(ttl, s, es)
      && var s' := Run(ttl, s, es); Descends(s'.issued, a, b) && LiveEntry(s'.redis, b).Some?
  {
    s := Revoked(ttl, user, a);
    Revokes(ttl, user, a);
    GoesOn(ttl, s, user, a, b);
  }
}
