/** The sequential methods of JwtService.dfy as runs of the concurrent machine of RefreshProtocol.dfy. */
module RefreshRuns {
  import opened Common
  import opened Uuids
  import opened RedisStore
  import opened RefreshProtocol
  import J = JwtServices

  /** `es` takes `s` to `s'`. */
  ghost predicate Leads(ttl: int, s: State, es: seq<Step>, s': State) { LegalRun(ttl, s, es) && Run(ttl, s, es) == s' }

  lemma OneStep(ttl: int, s: State, e: Step)
    requires Enabled(s, e)
    ensures Leads(ttl, s, [e], Apply(ttl, s, e))
  {
    assert [e][1..] == [];
    assert LegalRun(ttl, Apply(ttl, s, e), []) && Run(ttl, Apply(ttl, s, e), []) == Apply(ttl, s, e);
  }

  lemma {:induction false} Then(ttl: int, s: State, es: seq<Step>, m: State, fs: seq<Step>, s': State)
    requires Leads(ttl, s, es, m) && Leads(ttl, m, fs, s')
    ensures Leads(ttl, s, es + fs, s')
    decreases |es|
  {
    if es == [] {
      assert es + fs == fs;
    } else {
      assert (es + fs)[0] == es[0] && (es + fs)[1..] == es[1..] + fs;
      Then(ttl, Apply(ttl, s, es[0]), es[1..], m, fs, s');
    }
  }

  lemma ThenStep(ttl: int, s: State, es: seq<Step>, m: State, e: Step)
    requires Leads(ttl, s, es, m) && Enabled(m, e)
    ensures Leads(ttl, s, es + [e], Apply(ttl, m, e))
  {
    OneStep(ttl, m, e);
    Then(ttl, s, es, m, [e], Apply(ttl, m, e));
  }

  // ---- redeeming

  /** `n` executions of the script whose replies are lost. */
  lemma {:induction false} LostRedeems(ttl: int, s: State, token: string, n: nat) returns (es: seq<Step>, s': State)
    requires !InFlight(s, token)
    ensures Leads(ttl, s, es, s') && s'.callers == s.callers && s'.issued == s.issued
    ensures s'.redis == if n == 0 then s.redis else RedeemTx(s.redis, token)
    ensures RedeemReply(s'.redis, token)
      == if n == 0 then RedeemReply(s.redis, token) else J.AfterLostReply(RedeemReply(s.redis, token))
  {
    es, s' := [], s;
    if n > 0 {
      var m;
      es, m := LostRedeems(ttl, s, token, n - 1);
      var e := Step.Redeem(token, None);
      ThenStep(ttl, s, es, m, e);
      J.RedeemAgain(s.redis, token);
      es, s' := es + [e], Apply(ttl, m, e);
    }
  }

  // ---- issuing

  /** `n` executions of the issuing transaction, and the caller's return. */
  lemma {:induction false} Issues(ttl: int, s: State, id: nat, n: nat) returns (es: seq<Step>, s': State)
    requires id in s.callers && s.callers[id].Issuing?
    ensures Leads(ttl, s, es, s') && s'.callers == s.callers
    ensures var c := s.callers[id]; s'.redis == if n == 0 then s.redis else IssueTx(s.redis, c.user, c.token, ttl)
  {
    es, s' := [], s;
    if n > 0 {
      var m;
      es, m := Issues(ttl, s, id, n - 1);
      var e := WriteToken(id);
      ThenStep(ttl, s, es, m, e);
      IssueAgain(s.redis, s.callers[id].user, s.callers[id].token, ttl);
      es, s' := es + [e], Apply(ttl, m, e);
    }
  }

  lemma IssueAgain(r: Redis, user: Uuid, token: string, ttl: int)
    ensures IssueTx(IssueTx(r, user, token, ttl), user, token, ttl) == IssueTx(r, user, token, ttl)
  {
  }

  lemma IssuesAndLeaves(ttl: int, s: State, id: nat, call: J.Call) returns (es: seq<Step>, s': State)
    requires id in s.callers && s.callers[id].Issuing?
    ensures Leads(ttl, s, es, s') && s'.callers == s.callers - {id}
    ensures s'.redis == J.Issued(s.redis, s.callers[id].user, s.callers[id].token, ttl, call)
  {
    var m;
    es, m := Issues(ttl, s, id, J.Executions(call));
    ThenStep(ttl, s, es, m, Leave(id));
    es, s' := es + [Leave(id)], Apply(ttl, m, Leave(id));
  }

  /** A login's `GeneratePair`. */
  lemma LoginIsARun(ttl: int, s: State, id: nat, user: Uuid, token: string, call: J.Call)
    returns (es: seq<Step>, s': State)
    requires id !in s.callers && token !in s.issued
    ensures Leads(ttl, s, es, s') && s'.callers == s.callers && s'.redis == J.Issued(s.redis, user, token, ttl, call)
  {
    var e := Login(id, user, token);
    OneStep(ttl, s, e);
    var fs;
    fs, s' := IssuesAndLeaves(ttl, Apply(ttl, s, e), id, call);
    Then(ttl, s, [e], Apply(ttl, s, e), fs, s');
    es := [e] + fs;
  }

  // ---- revoking

  lemma SetTwice(m: map<nat, Caller>, id: nat, c: Caller, c': Caller)
    ensures m[id := c][id := c'] == m[id := c'] && m[id := c] - {id} == m - {id}
    ensures id in m && m[id] == c ==> m[id := c] == m
  {
  }

  lemma PurgeFirst(r: Redis, user: Uuid, key: string, keys: set<string>)
    requires key in keys
    ensures J.Purge(RevokeTx(r, user, key), user, keys - {key}) == J.Purge(r, user, keys)
  {
    assert J.Purge(r, user, {}) == r;
    J.PurgeOne(r, user, {}, key);
    J.PurgeTwice(r, user, {key}, keys - {key});
    assert {key} + (keys - {key}) == keys;
  }

  lemma {:induction false} RevokesBatch(ttl: int, s: State, id: nat, c: Caller) returns (es: seq<Step>, s': State)
    requires id in s.callers && s.callers[id] == c && c.Revoking?
    ensures Leads(ttl, s, es, s') && s'.callers == s.callers[id := c.(batch := {})]
    ensures s'.redis == J.Purge(s.redis, c.user, c.batch)
    decreases c.batch
  {
    if c.batch == {} {
      es, s' := [], s;
      SetTwice(s.callers, id, c, c);
      assert J.Purge(s.redis, c.user, {}) == s.redis;
    } else {
      var key :| key in c.batch;
      var m, c' := Apply(ttl, s, RevokeKey(id, key)), c.(batch := c.batch - {key});
      assert m.redis == RevokeTx(s.redis, c.user, key) && m.callers == s.callers[id := c'];
      OneStep(ttl, s, RevokeKey(id, key));
      var fs;
      fs, s' := RevokesBatch(ttl, m, id, c');
      Then(ttl, s, [RevokeKey(id, key)], m, fs, s');
      es := [RevokeKey(id, key)] + fs;
      PurgeFirst(s.redis, c.user, key, c.batch);
      SetTwice(s.callers, id, c', c.(batch := {}));
    }
  }

  /** A scan that has just begun, the revocation of some of the keys, and the return: nil if they were all. */
  lemma Revokes(ttl: int, s: State, id: nat, c: Caller, keys: set<string>) returns (es: seq<Step>, s': State)
    requires id in s.callers && s.callers[id] == c && c.Revoking? && c.batch == {}
    requires c.must == IndexKeys(s.redis, c.user) && keys <= c.must
    ensures Leads(ttl, s, es, s') && s'.callers == s.callers - {id}
    ensures s'.redis == J.Purge(s.redis, c.user, keys)
    ensures es != [] && (keys == c.must ==> es[|es| - 1] == FinishRevoke(id))
  {
    var m, c' := Apply(ttl, s, ScanReply(id, keys)), c.(must := c.must - keys, batch := keys);
    assert m.redis == s.redis && m.callers == s.callers[id := c'];
    OneStep(ttl, s, ScanReply(id, keys));
    var fs, n := RevokesBatch(ttl, m, id, c');
    Then(ttl, s, [ScanReply(id, keys)], m, fs, n);
    SetTwice(s.callers, id, c', c'.(batch := {}));
    var last;
    last, s' := Returns(ttl, n, id, c'.(batch := {}));
    ThenStep(ttl, s, [ScanReply(id, keys)] + fs, n, last);
    SetTwice(s.callers, id, c'.(batch := {}), c);
    es := [ScanReply(id, keys)] + fs + [last];
  }

  lemma Returns(ttl: int, s: State, id: nat, c: Caller) returns (last: Step, s': State)
    requires id in s.callers && s.callers[id] == c && c.Revoking? && c.batch == {}
    ensures Enabled(s, last) && s' == Apply(ttl, s, last) && s' == s.(callers := s.callers - {id})
    ensures c.must == {} ==> last == FinishRevoke(id)
  {
    last := if c.must == {} then FinishRevoke(id) else Leave(id);
    s' := Apply(ttl, s, last);
  }

  /** A caller told REUSED. */
  lemma CaughtRevokes(ttl: int, s: State, id: nat, keys: set<string>) returns (es: seq<Step>, s': State)
    requires id in s.callers && s.callers[id].Caught? && keys <= IndexKeys(s.redis, s.callers[id].user)
    ensures Leads(ttl, s, es, s') && s'.callers == s.callers - {id}
    ensures s'.redis == J.Purge(s.redis, s.callers[id].user, keys)
    ensures keys == IndexKeys(s.redis, s.callers[id].user) ==> es != [] && es[|es| - 1] == FinishRevoke(id)
  {
    var user := s.callers[id].user;
    var m, c := Apply(ttl, s, RevokeReused(id)), FreshScan(s, user, Some(s.callers[id].token));
    assert m.redis == s.redis && m.callers == s.callers[id := c];
    OneStep(ttl, s, RevokeReused(id));
    var fs;
    fs, s' := Revokes(ttl, m, id, c, keys);
    Then(ttl, s, [RevokeReused(id)], m, fs, s');
    SetTwice(s.callers, id, c, c);
    es := [RevokeReused(id)] + fs;
  }

  // ---- the refresh use case

  lemma Cleans(ttl: int, s: State, user: Uuid, token: string, cleaned: bool) returns (es: seq<Step>, s': State)
    requires token in s.answered
    ensures Leads(ttl, s, es, s') && s' == s.(redis := J.Cleaned(s.redis, user, token, cleaned))
  {
    if cleaned {
      OneStep(ttl, s, CleanIndex(user, token));
      es, s' := [CleanIndex(user, token)], Apply(ttl, s, CleanIndex(user, token));
    } else {
      es, s' := [], s;
    }
  }

  lemma Reissues(ttl: int, s: State, id: nat, next: string, call: J.Call) returns (es: seq<Step>, s': State)
    requires id in s.callers && s.callers[id].Redeemed? && next !in s.issued
    ensures Leads(ttl, s, es, s') && s'.callers == s.callers - {id}
    ensures s'.redis == J.Issued(s.redis, s.callers[id].user, next, ttl, call)
  {
    var m, c := Apply(ttl, s, Reissue(id, next)), Issuing(s.callers[id].user, next);
    assert m.redis == s.redis && m.callers == s.callers[id := c];
    OneStep(ttl, s, Reissue(id, next));
    var fs;
    fs, s' := IssuesAndLeaves(ttl, m, id, call);
    Then(ttl, s, [Reissue(id, next)], m, fs, s');
    SetTwice(s.callers, id, c, c);
    es := [Reissue(id, next)] + fs;
  }

  /** A caller whose redemption was answered OK: the index entry perhaps cleaned, then a reissue or an early return. */
  lemma RedeemedGoesOn(ttl: int, s: State, id: nat, cleaned: bool, next: string, reissue: bool, call: J.Call)
    returns (es: seq<Step>, s': State)
    requires id in s.callers && s.callers[id].Redeemed? && s.callers[id].token in s.answered && next !in s.issued
    ensures Leads(ttl, s, es, s') && s'.callers == s.callers - {id}
    ensures var user := s.callers[id].user; var r := J.Cleaned(s.redis, user, s.callers[id].token, cleaned);
      s'.redis == if reissue then J.Issued(r, user, next, ttl, call) else r
  {
    var m;
    es, m := Cleans(ttl, s, s.callers[id].user, s.callers[id].token, cleaned);
    var fs;
    if reissue {
      fs, s' := Reissues(ttl, m, id, next, call);
    } else {
      OneStep(ttl, m, Leave(id));
      fs, s' := [Leave(id)], Apply(ttl, m, Leave(id));
    }
    Then(ttl, s, es, m, fs, s');
    es := es + fs;
  }

  /** The last execution of the script, whose reply arrives, and what the use case does with it. */
  lemma ReplyArrives(ttl: int, s: State, id: nat, token: string) returns (s': State)
    requires id !in s.callers && !InFlight(s, token)
    ensures Leads(ttl, s, [Step.Redeem(token, Some(id))], s') && s'.redis == RedeemTx(s.redis, token)
      && s'.issued == s.issued
    ensures match J.ReadReply(RedeemReply(s.redis, token))
      case Success(RedemptionOK(user)) => token in s'.answered && s'.callers == s.callers[id := Redeemed(user, token)]
      case Success(RedemptionReused(user)) => s'.callers == s.callers[id := Caught(user, token)]
      case _ => s'.callers == s.callers
  {
    var e := Step.Redeem(token, Some(id));
    OneStep(ttl, s, e);
    s' := Apply(ttl, s, e);
    AnsweredAsRead(s.(redis := RedeemTx(s.redis, token)), token, id, RedeemReply(s.redis, token));
  }

  lemma AnsweredAsRead(s: State, token: string, id: nat, reply: Reply)
    ensures var s' := Answered(s, token, Some(id), reply);
      match J.ReadReply(reply)
      case Success(RedemptionOK(user)) => token in s'.answered && s'.callers == s.callers[id := Redeemed(user, token)]
      case Success(RedemptionReused(user)) => s'.callers == s.callers[id := Caught(user, token)]
      case _ => s'.callers == s.callers
  {
    if reply.OK? {
      assert (s.answered + [token])[|s.answered|] == token;
    }
  }

  /**
   * Every sequential refresh is a run of the machine: from a state with the same store, with a fresh caller and a fresh
   * successor, some legal steps of that caller (and executions whose replies nobody receives) lead to the store that
   * `Execute` leaves, and every caller is where it was. A completed revoke-all ends with the scan's end.
   */
  method ExecuteIsARun(ghost s: State, ghost id: nat, refresh: J.RefreshToken, token: string, next: string,
      redeem: J.Call, cleaned: bool, runs: seq<(nat, nat -> set<string>, nat)>, issue: J.Call)
    returns (r: J.Result<string>, ghost revoked: set<string>, ghost all: bool, ghost es: seq<Step>, ghost s': State)
    requires refresh.tokens.redis == s.redis && id !in s.callers && !InFlight(s, token) && next !in s.issued
    modifies refresh, refresh.tokens
    ensures Leads(refresh.tokens.refreshTTL, s, es, s') && s'.redis == refresh.tokens.redis && s'.callers == s.callers
    ensures all ==> es != [] && es[|es| - 1] == FinishRevoke(id)
  {
    r, revoked, all := refresh.Execute(token, next, redeem, cleaned, runs, issue);
    es, s' := RefreshRun(refresh.tokens.refreshTTL, s, id, token, next, redeem, cleaned, refresh.users, revoked, issue);
  }

  lemma RefreshRun(ttl: int, s: State, id: nat, token: string, next: string, redeem: J.Call, cleaned: bool,
      users: map<Uuid, J.User>, revoked: set<string>, issue: J.Call)
    returns (es: seq<Step>, s': State)
    requires id !in s.callers && !InFlight(s, token) && next !in s.issued
    requires var result := J.RedeemResult(s.redis, token, redeem);
      result.Success? && result.value.RedemptionReused? ==>
        revoked <= IndexKeys(J.Consumed(s.redis, token, redeem), result.value.user)
    ensures Leads(ttl, s, es, s') && s'.callers == s.callers
    ensures s'.redis == J.AfterRefresh(ttl, s.redis, token, next, redeem, cleaned, users, revoked, issue)
    ensures var result := J.RedeemResult(s.redis, token, redeem);
      result.Success? && result.value.RedemptionReused?
      && revoked == IndexKeys(J.Consumed(s.redis, token, redeem), result.value.user) ==>
        es != [] && es[|es| - 1] == FinishRevoke(id)
  {
    if !redeem.Answered? {
      es, s' := LostRedeems(ttl, s, token, J.Executions(redeem));
    } else {
      var n, fs;
      es, n := AnswerRun(ttl, s, id, token, redeem);
      var result := J.RedeemResult(s.redis, token, redeem);
      fs, s' := RestOfRefresh(ttl, s, n, id, result, token, next, cleaned, users, revoked, issue);
      Then(ttl, s, es, n, fs, s');
      es := es + fs;
    }
  }

  /** The caller whose refresh has been answered `result`, among the others. */
  ghost predicate Stands(s: State, n: State, id: nat, token: string, result: J.Result<J.Redemption>) {
    n.issued == s.issued
    && match result
       case Success(RedemptionOK(user)) => token in n.answered && n.callers == s.callers[id := Redeemed(user, token)]
       case Success(RedemptionReused(user)) => n.callers == s.callers[id := Caught(user, token)]
       case _ => n.callers == s.callers
  }

  /** All executions of an answered call. */
  lemma AnswerRun(ttl: int, s: State, id: nat, token: string, redeem: J.Call) returns (es: seq<Step>, n: State)
    requires id !in s.callers && !InFlight(s, token) && redeem.Answered?
    ensures Leads(ttl, s, es, n) && n.redis == J.Consumed(s.redis, token, redeem)
    ensures Stands(s, n, id, token, J.RedeemResult(s.redis, token, redeem))
  {
    var m;
    es, m := LostRedeems(ttl, s, token, redeem.lost);
    n := ReplyArrives(ttl, m, id, token);
    Then(ttl, s, es, m, [Step.Redeem(token, Some(id))], n);
    es := es + [Step.Redeem(token, Some(id))];
    J.RedeemAgain(s.redis, token);
  }

  /** After an OK. */
  lemma RestOfOK(ttl: int, s: State, n: State, id: nat, user: Uuid, token: string, next: string, cleaned: bool,
      reissue: bool, issue: J.Call)
    returns (fs: seq<Step>, s': State)
    requires id !in s.callers && next !in n.issued && token in n.answered
    requires n.callers == s.callers[id := Redeemed(user, token)]
    ensures Leads(ttl, n, fs, s') && s'.callers == s.callers
    ensures var r := J.Cleaned(n.redis, user, token, cleaned);
      s'.redis == if reissue then J.Issued(r, user, next, ttl, issue) else r
  {
    fs, s' := RedeemedGoesOn(ttl, n, id, cleaned, next, reissue, issue);
    AddAndDrop(s.callers, id, Redeemed(user, token));
  }

  /** After a REUSED. */
  lemma RestOfReused(ttl: int, s: State, n: State, id: nat, user: Uuid, token: string, revoked: set<string>)
    returns (fs: seq<Step>, s': State)
    requires id !in s.callers && n.callers == s.callers[id := Caught(user, token)]
    requires revoked <= IndexKeys(n.redis, user)
    ensures Leads(ttl, n, fs, s') && s'.callers == s.callers && s'.redis == J.Purge(n.redis, user, revoked)
    ensures revoked == IndexKeys(n.redis, user) ==> fs != [] && fs[|fs| - 1] == FinishRevoke(id)
  {
    fs, s' := CaughtRevokes(ttl, n, id, revoked);
    AddAndDrop(s.callers, id, Caught(user, token));
  }

  /** What the use case does with the answer. */
  lemma RestOfRefresh(ttl: int, s: State, n: State, id: nat, result: J.Result<J.Redemption>, token: string,
      next: string, cleaned: bool, users: map<Uuid, J.User>, revoked: set<string>, issue: J.Call)
    returns (fs: seq<Step>, s': State)
    requires id !in s.callers && next !in s.issued && Stands(s, n, id, token, result)
    requires result.Success? && result.value.RedemptionReused? ==> revoked <= IndexKeys(n.redis, result.value.user)
    ensures Leads(ttl, n, fs, s') && s'.callers == s.callers
    ensures s'.redis == J.AfterAnswer(ttl, n.redis, result, token, next, cleaned, users, revoked, issue)
    ensures result.Success? && result.value.RedemptionReused? && revoked == IndexKeys(n.redis, result.value.user) ==>
      fs != [] && fs[|fs| - 1] == FinishRevoke(id)
  {
    match result {
      case Success(RedemptionOK(user)) =>
        fs, s' := RestOfOK(ttl, s, n, id, user, token, next, cleaned, user in users && users[user].active, issue);
      case Success(RedemptionReused(user)) => fs, s' := RestOfReused(ttl, s, n, id, user, token, revoked);
      case _ => fs, s' := [], n;
    }
  }

  lemma AddAndDrop(m: map<nat, Caller>, id: nat, c: Caller)
    requires id !in m
    ensures m[id := c] - {id} == m
  {
  }
}
