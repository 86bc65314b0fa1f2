/** The methods of `JWTService` and of the `RefreshToken` use case, run by one caller on one store. */
module JwtServices {
  import opened Common
  import opened Uuids
  import opened RedisStore

  datatype Error = ErrServiceUnavailable | ErrInternal | ErrTokenInvalid | ErrInvalidCredentials | ErrUserNotFound
    | ErrAccountInactive

  datatype Result<+T> = Success(value: T) | Failure(error: Error)

  /**
   * How one guarded call went: the breaker rejected it; the operation was executed `lost` times and no reply ever came
   * back; or the reply of one more execution did.
   */
  datatype Call = Rejected | Unanswered(lost: nat) | Answered(lost: nat)

  function Executions(c: Call): nat {
    match c
    case Rejected => 0
    case Unanswered(lost) => lost
    case Answered(lost) => lost + 1
  }

  function CallError(c: Call): Error { if c.Rejected? then ErrServiceUnavailable else ErrInternal }

  datatype Redemption = RedemptionInvalid | RedemptionOK(user: Uuid) | RedemptionReused(user: Uuid)

  /** The reply to a second execution at the same time: the first has made the token a used one. */
  function AfterLostReply(reply: Reply): Reply {
    match reply
    case OK(user) => Reused(user)
    case _ => reply
  }

  lemma RedeemAgain(r: Redis, token: string)
    ensures RedeemReply(RedeemTx(r, token), token) == AfterLostReply(RedeemReply(r, token))
    ensures RedeemTx(RedeemTx(r, token), token) == RedeemTx(r, token)
  {
    RedeemEffect(r, token, token, seq(16, _ => 0));
  }

  function ReadReply(reply: Reply): Result<Redemption> {
    match reply
    case Invalid => Success(RedemptionInvalid)
    case OK(text) =>
      (match Parse(text)
       case Some(user) => Success(RedemptionOK(user))
       case None => Failure(ErrTokenInvalid))
    case Reused(text) =>
      (match Parse(text)
       case Some(user) => Success(RedemptionReused(user))
       case None => Failure(ErrTokenInvalid))
  }

  /** What a redemption comes to: with a lost reply, the caller is answered by a later execution. */
  function RedeemResult(r: Redis, token: string, call: Call): Result<Redemption> {
    if !call.Answered? then Failure(CallError(call))
    else ReadReply(if call.lost == 0 then RedeemReply(r, token) else AfterLostReply(RedeemReply(r, token)))
  }

  /**
   * What the caller is told: a used token is reused, and so is a live one if a reply was lost on the way; each only if
   * the stored text is an identifier.
   */
  lemma RedeemTells(r: Redis, token: string, call: Call)
    ensures var result, used, live := RedeemResult(r, token, call), UsedEntry(r, token), LiveEntry(r, token);
      && (call.Rejected? ==> result == Failure(ErrServiceUnavailable))
      && (call.Unanswered? ==> result == Failure(ErrInternal))
      && (call.Answered? && used == None && live == None ==> result == Success(RedemptionInvalid))
      && (call.Answered? && used.Some? ==> result == match Parse(used.value.value)
        case Some(user) => Success(RedemptionReused(user))
        case None => Failure(ErrTokenInvalid))
      && (call.Answered? && used == None && live.Some? ==> result == match Parse(live.value.value)
        case Some(user) => Success(if call.lost == 0 then RedemptionOK(user) else RedemptionReused(user))
        case None => Failure(ErrTokenInvalid))
  {
    RedeemEffect(r, token, token, seq(16, _ => 0));
  }

  function Consumed(r: Redis, token: string, call: Call): Redis {
    if Executions(call) == 0 then r else RedeemTx(r, token)
  }

  function Issued(r: Redis, user: Uuid, token: string, ttl: int, call: Call): Redis {
    if Executions(call) == 0 then r else IssueTx(r, user, token, ttl)
  }

  function Cleaned(r: Redis, user: Uuid, token: string, cleaned: bool): Redis {
    if cleaned then Del(r, UserRefreshKey(user, token)) else r
  }

  // ---- what a revoke-all leaves

  /** The token keys the given index keys of `user` lead to. */
  function TokenKeys(user: Uuid, keys: set<string>): set<string> {
    set k | k in keys :: RefreshKey(TrimPrefix(k, UserRefreshKeyPrefix(user)))
  }

  /** The store without the given index keys of `user` and the tokens they name. */
  function Purge(r: Redis, user: Uuid, keys: set<string>): Redis { r.(kv := r.kv - TokenKeys(user, keys) - keys) }

  lemma MinusTwice(m: map<string, Entry>, a: set<string>, b: set<string>, c: set<string>, d: set<string>)
    ensures m - a - b - c - d == m - (a + c) - (b + d)
  {
  }

  lemma PurgeTwice(r: Redis, user: Uuid, done: set<string>, more: set<string>)
    ensures Purge(Purge(r, user, done), user, more) == Purge(r, user, done + more)
  {
    assert TokenKeys(user, done + more) == TokenKeys(user, done) + TokenKeys(user, more);
    MinusTwice(r.kv, TokenKeys(user, done), done, TokenKeys(user, more), more);
  }

  lemma PurgeOne(r: Redis, user: Uuid, keys: set<string>, key: string)
    ensures RevokeTx(Purge(r, user, keys), user, key) == Purge(r, user, keys + {key})
  {
    assert TokenKeys(user, {key}) == {RefreshKey(TrimPrefix(key, UserRefreshKeyPrefix(user)))};
    assert RevokeTx(Purge(r, user, keys), user, key) == Purge(Purge(r, user, keys), user, {key});
    PurgeTwice(r, user, keys, {key});
  }

  /** Purging some of a user's index keys kills exactly the tokens they name; tombstones stay. */
  lemma PurgeEffect(r: Redis, user: Uuid, keys: set<string>, t: string, u: Uuid)
    requires forall k :: k in keys ==> HasPrefix(k, UserRefreshKeyPrefix(user))
    ensures var r' := Purge(r, user, keys);
      && LiveEntry(r', t) == (if UserRefreshKey(user, t) in keys then None else LiveEntry(r, t))
      && UsedEntry(r', t) == UsedEntry(r, t)
      && IndexEntry(r', u, t) == (if u == user && UserRefreshKey(u, t) in keys then None else IndexEntry(r, u, t))
  {
    PrefixSelectsUser(user, user, t, "");
    forall k | k in keys
      ensures RefreshKey(TrimPrefix(k, UserRefreshKeyPrefix(user))) == RefreshKey(t) <==> k == UserRefreshKey(user, t)
      ensures RefreshKey(TrimPrefix(k, UserRefreshKeyPrefix(user))) != UsedRefreshKey(t)
      ensures RefreshKey(TrimPrefix(k, UserRefreshKeyPrefix(user))) != UserRefreshKey(u, t)
      ensures k != RefreshKey(t) && k != UsedRefreshKey(t)
      ensures k == UserRefreshKey(u, t) ==> u == user
    {
      var token := TrimPrefix(k, UserRefreshKeyPrefix(user));
      PrefixSelectsUser(user, user, token, k);
      KeysApart(token, t, u, user);
      KeysApart(t, token, user, u);
      KeysApart(token, t, user, u);
    }
  }

  /**
   * Every live token names its owner and has an entry in the owner's index; an index names live tokens of its owner
   * only.
   */
  ghost predicate Indexed(r: Redis) {
    && (forall t :: LiveEntry(r, t).Some? ==> exists u :: OwnedBy(r, t, u))
    && (forall t, u :: LiveEntry(r, t).Some? && IndexEntry(r, u, t).Some? ==> LiveEntry(r, t).value.value == Text(u))
  }

  ghost predicate OwnedBy(r: Redis, t: string, u: Uuid) {
    LiveEntry(r, t).Some? && LiveEntry(r, t).value.value == Text(u)
    && IndexEntry(r, u, t).Some? && IndexEntry(r, u, t).value.deadline >= LiveEntry(r, t).value.deadline
  }

  lemma VisibleIndexKey(r: Redis, user: Uuid, t: string)
    ensures UserRefreshKey(user, t) in IndexKeys(r, user) <==> IndexEntry(r, user, t).Some?
  {
    PrefixSelectsUser(user, user, t, UserRefreshKey(user, t));
  }

  lemma IndexedToken(r: Redis, user: Uuid, t: string)
    requires Indexed(r) && LiveEntry(r, t).Some?
    ensures IndexEntry(r, user, t).Some? <==> LiveEntry(r, t).value.value == Text(user)
  {
    var u :| OwnedBy(r, t, u);
    ParseRoundTrip(u);
    ParseRoundTrip(user);
  }

  /**
   * With a complete index, purging all of a user's visible index keys leaves the user no live token, and others all.
   */
  lemma PurgeAllKillsExactlyTheUsers(r: Redis, user: Uuid, t: string)
    requires Indexed(r)
    ensures var r' := Purge(r, user, IndexKeys(r, user));
      LiveEntry(r', t)
        == (if LiveEntry(r, t).Some? && LiveEntry(r, t).value.value == Text(user) then None else LiveEntry(r, t))
      && UsedEntry(r', t) == UsedEntry(r, t)
  {
    PurgeEffect(r, user, IndexKeys(r, user), t, user);
    VisibleIndexKey(r, user, t);
    if LiveEntry(r, t).Some? {
      IndexedToken(r, user, t);
    }
  }

  /** Attempts at a revoke-all that fail at their first command. */
  predicate AllFail(runs: seq<(nat, nat -> set<string>, nat)>) { forall i :: 0 <= i < |runs| ==> runs[i].2 == 0 }

  /** No token is live for the user. */
  ghost predicate NoSession(r: Redis, user: Uuid) {
    forall t :: LiveEntry(r, t).Some? ==> LiveEntry(r, t).value.value != Text(user)
  }

  /** A revoke-all, finished or not, leaves no session exactly when it got to the index key of every live token. */
  lemma SessionsEndIff(r: Redis, user: Uuid, keys: set<string>)
    requires keys <= IndexKeys(r, user)
    ensures NoSession(Purge(r, user, keys), user)
      <==> forall t :: LiveEntry(r, t).Some? && LiveEntry(r, t).value.value == Text(user) ==>
             UserRefreshKey(user, t) in keys
  {
    var r' := Purge(r, user, keys);
    forall t ensures LiveEntry(r', t) == if UserRefreshKey(user, t) in keys then None else LiveEntry(r, t) {
      PurgeEffect(r, user, keys, t, user);
    }
    if NoSession(r', user) {
      forall t | LiveEntry(r, t).Some? && LiveEntry(r, t).value.value == Text(user)
        ensures UserRefreshKey(user, t) in keys
      {
        assert UserRefreshKey(user, t) !in keys ==> LiveEntry(r', t) == LiveEntry(r, t);
      }
    }
  }

  class JWTService {
    const refreshTTL: int
    var redis: Redis

    constructor (refreshTTL: int)
      ensures this.refreshTTL == refreshTTL && redis == Redis(map[], 0)
    {
      this.refreshTTL, redis := refreshTTL, Redis(map[], 0);
    }

    /**
     * Stores the drawn token; sending the transaction again changes nothing more. The pair's second half is returned.
     */
    method GeneratePair(user: Uuid, token: string, call: Call) returns (r: Result<string>)
      modifies this
      ensures redis == Issued(old(redis), user, token, refreshTTL, call)
      ensures r == match call
        case Answered(_) => Success(token)
        case Unanswered(_) => Failure(ErrInternal)
        case Rejected => Failure(ErrServiceUnavailable)
      ensures call.Rejected? || call == Unanswered(0) ==> redis == old(redis)
      ensures refreshTTL > 0 && (call.Answered? || (call.Unanswered? && call.lost > 0)) ==>
        LiveEntry(redis, token) == Some(Entry(Text(user), old(redis.now) + refreshTTL))
        && IndexEntry(redis, user, token) == Some(Entry(token, old(redis.now) + refreshTTL))
    {
      if refreshTTL > 0 {
        IssueEffect(redis, user, token, refreshTTL, token, user);
      }
      var n := Executions(call);
      for i := 0 to n
        invariant redis == if i == 0 then old(redis) else IssueTx(old(redis), user, token, refreshTTL)
      {
        redis := IssueTx(redis, user, token, refreshTTL);
      }
      r := if call.Answered? then Success(token) else Failure(CallError(call));
    }

    /**
     * A live token is answered OK when the first reply arrives; when a reply was lost on the way, the same call is told
     * that the token is a reused one. Either way the token is consumed exactly once.
     */
    method RedeemRefreshToken(token: string, call: Call, cleaned: bool) returns (r: Result<Redemption>)
      modifies this
      ensures r == RedeemResult(old(redis), token, call)
      ensures var consumed := Consumed(old(redis), token, call);
        redis ==
          if r.Success? && r.value.RedemptionOK? then Cleaned(consumed, r.value.user, token, cleaned) else consumed
      ensures call.Rejected? ==> r == Failure(ErrServiceUnavailable) && redis == old(redis)
      ensures call.Unanswered? ==> r == Failure(ErrInternal)
      ensures RedeemReply(old(redis), token).OK? && (call.Answered? || (call.Unanswered? && call.lost > 0)) ==>
        LiveEntry(redis, token) == None
        && UsedEntry(redis, token) == Some(Entry(RedeemReply(old(redis), token).user, old(redis.now) + 300_000))
    {
      RedeemEffect(redis, token, token, seq(16, _ => 0));
      var n := Executions(call);
      var reply := Invalid;
      for i := 0 to n
        invariant redis == if i == 0 then old(redis) else RedeemTx(old(redis), token)
        invariant i == 1 ==> reply == RedeemReply(old(redis), token)
        invariant i > 1 ==> reply == AfterLostReply(RedeemReply(old(redis), token))
      {
        RedeemAgain(old(redis), token);
        reply := RedeemReply(redis, token);
        redis := RedeemTx(redis, token);
      }
      if !call.Answered? {
        return Failure(CallError(call));
      }
      r := ReadReply(reply);
      if r.Success? && r.value.RedemptionOK? && cleaned {
        DelIndexEffect(redis, r.value.user, token, token, r.value.user);
        redis := Del(redis, UserRefreshKey(r.value.user, token));
      }
    }

    /**
     * Redeem and issue in one call. A successor is issued only for an unused token of the given user whose first reply
     * arrived; presenting another user's live token uses that token up and issues nothing.
     */
    method RotateRefreshToken(oldToken: string, user: Uuid, next: string, redeem: Call, cleaned: bool, issue: Call)
      returns (r: Result<string>)
      modifies this
      ensures var consumed := Consumed(old(redis), oldToken, redeem);
        match RedeemResult(old(redis), oldToken, redeem)
        case Failure(e) => r == Failure(e) && redis == consumed
        case Success(RedemptionOK(owner)) =>
          if owner == user
          then redis == Issued(Cleaned(consumed, user, oldToken, cleaned), user, next, refreshTTL, issue)
            && r == if issue.Answered? then Success(next) else Failure(CallError(issue))
          else r == Failure(ErrTokenInvalid) && redis == Cleaned(consumed, owner, oldToken, cleaned)
        case Success(_) => r == Failure(ErrTokenInvalid) && redis == consumed
    {
      var result := RedeemRefreshToken(oldToken, redeem, cleaned);
      if result.Failure? {
        return Failure(result.error);
      }
      if result.value != RedemptionOK(user) {
        return Failure(ErrTokenInvalid);
      }
      r := GeneratePair(user, next, issue);
    }

    method FindUserIDByRefreshToken(token: string, call: Call) returns (r: Result<Option<Uuid>>)
      ensures call.Answered? ==> match LiveEntry(redis, token)
        case None => r == Success(None)
        case Some(e) =>
          r == match Parse(e.value) case Some(user) => Success(Some(user)) case None => Failure(ErrTokenInvalid)
      ensures call.Rejected? ==> r == Failure(ErrServiceUnavailable)
      ensures call.Unanswered? ==> r == Failure(ErrInternal)
    {
      if !call.Answered? {
        return Failure(CallError(call));
      }
      var stored := Get(redis, RefreshKey(token));
      if stored == None {
        return Success(None);
      }
      var user := Parse(stored.value);
      r := if user.Some? then Success(Some(user.value)) else Failure(ErrTokenInvalid);
    }

    method RevokeRefreshToken(token: string, call: Call) returns (ok: bool)
      modifies this
      ensures redis == if Executions(call) == 0 then old(redis) else Del(old(redis), RefreshKey(token))
      ensures ok == call.Answered?
      ensures call.Answered? || (call.Unanswered? && call.lost > 0) ==> LiveEntry(redis, token) == None
      ensures call.Rejected? || call == Unanswered(0) ==> redis == old(redis)
    {
      DelLiveEffect(redis, token, token, seq(16, _ => 0));
      var n := Executions(call);
      for i := 0 to n
        invariant redis == if i == 0 then old(redis) else Del(old(redis), RefreshKey(token))
      {
        redis := Del(redis, RefreshKey(token));
      }
      ok := call.Answered?;
    }

    /**
     * One run of the scan loop. The server answers in `rounds + 1` batches: `pick` says what it returns when, and the
     * last batch holds whatever was there from the start and has not been returned. `budget` commands succeed, then
     * one fails.
     */
    method RevokeRun(user: Uuid, rounds: nat, pick: nat -> set<string>, budget: nat)
        returns (ok: bool, ghost done: set<string>)
      modifies this
      ensures done <= IndexKeys(old(redis), user) && redis == Purge(old(redis), user, done)
      ensures ok ==> done == IndexKeys(old(redis), user)
      ensures budget == 0 ==> !ok && done == {}
    {
      done := {};
      var left := budget;
      var unseen := IndexKeys(redis, user);
      assert redis == Purge(old(redis), user, {});
      for round := 0 to rounds + 1
        invariant done <= IndexKeys(old(redis), user) && redis == Purge(old(redis), user, done)
        invariant unseen <= IndexKeys(old(redis), user)
        invariant IndexKeys(old(redis), user) <= unseen + done
        invariant round == rounds + 1 ==> unseen <= done
        invariant budget == 0 ==> left == 0 && round == 0 && done == {}
      {
        if left == 0 {
          return false, done;
        }
        left := left - 1;
        var visible := IndexKeys(redis, user);
        var keys := visible * (pick(round) + if round == rounds then unseen else {});
        PurgeVisible(old(redis), user, done);
        while keys != {}
          invariant keys <= IndexKeys(old(redis), user)
          invariant done <= IndexKeys(old(redis), user) && redis == Purge(old(redis), user, done)
          invariant IndexKeys(old(redis), user) <= unseen + done
          invariant round == rounds ==> unseen <= done + keys
        {
          var key :| key in keys;
          if left == 0 {
            return false, done;
          }
          left := left - 1;
          PurgeOne(old(redis), user, done, key);
          redis := RevokeTx(redis, user, key);
          done := done + {key};
          keys := keys - {key};
        }
      }
      ok := true;
    }

    /** The retried loop: runs follow one another until one returns nil or the attempts are used up. */
    method RevokeAllRefreshTokens(user: Uuid, runs: seq<(nat, nat -> set<string>, nat)>)
        returns (ok: bool, ghost done: set<string>)
      modifies this
      ensures done <= IndexKeys(old(redis), user) && redis == Purge(old(redis), user, done)
      ensures ok ==> done == IndexKeys(old(redis), user)
      ensures AllFail(runs) ==> !ok && done == {}
    {
      ok, done := false, {};
      assert redis == Purge(old(redis), user, {});
      for i := 0 to |runs|
        invariant done <= IndexKeys(old(redis), user) && redis == Purge(old(redis), user, done) && !ok
        invariant AllFail(runs) ==> done == {}
      {
        ghost var more;
        PurgeVisible(old(redis), user, done);
        ok, more := RevokeRun(user, runs[i].0, runs[i].1, runs[i].2);
        PurgeTwice(old(redis), user, done, more);
        done := done + more;
        if ok {
          return;
        }
      }
    }
  }

  /** The index keys still visible after a purge of some of them are the others. */
  lemma PurgeVisible(r: Redis, user: Uuid, done: set<string>)
    requires done <= IndexKeys(r, user)
    ensures IndexKeys(Purge(r, user, done), user) == IndexKeys(r, user) - done
  {
    forall k | HasPrefix(k, UserRefreshKeyPrefix(user))
      ensures Peek(Purge(r, user, done), k) == if k in done then None else Peek(r, k)
    {
      var t := TrimPrefix(k, UserRefreshKeyPrefix(user));
      PrefixSelectsUser(user, user, t, k);
      PurgeEffect(r, user, done, t, user);
    }
  }

  // ---- the refresh use case

  datatype User = User(id: Uuid, active: bool)

  /** The store after a refresh answered `result`: `revoked` are the index keys its revoke-all got to. */
  function AfterAnswer(ttl: int, r: Redis, result: Result<Redemption>, token: string, next: string, cleaned: bool,
      users: map<Uuid, User>, revoked: set<string>, issue: Call): Redis
  {
    match result
    case Success(RedemptionReused(user)) => Purge(r, user, revoked)
    case Success(RedemptionOK(user)) =>
      var r1 := Cleaned(r, user, token, cleaned);
      if user in users && users[user].active then Issued(r1, user, next, ttl, issue) else r1
    case _ => r
  }

  /** The store after a refresh. */
  function AfterRefresh(ttl: int, r: Redis, token: string, next: string, redeem: Call, cleaned: bool,
      users: map<Uuid, User>, revoked: set<string>, issue: Call): Redis
  {
    AfterAnswer(ttl, Consumed(r, token, redeem), RedeemResult(r, token, redeem), token, next, cleaned, users, revoked,
      issue)
  }

  /**
   * Whose token a refresh stores: for a live token whose first reply arrives, the successor of an existing, active user
   * whose issuing transaction ran, and nobody else's; the presented token is gone, and every other one as it was.
   */
  lemma RefreshStores(ttl: int, r: Redis, token: string, next: string, user: Uuid, cleaned: bool,
      users: map<Uuid, User>, revoked: set<string>, issue: Call, t: string)
    requires ttl > 0 && RedeemReply(r, token) == OK(Text(user))
    ensures LiveEntry(AfterRefresh(ttl, r, token, next, Answered(0), cleaned, users, revoked, issue), t)
      == if t == next && user in users && users[user].active
            && (issue.Answered? || (issue.Unanswered? && issue.lost > 0))
         then Some(Entry(Text(user), r.now + ttl))
         else if t == token then None else LiveEntry(r, t)
  {
    RefreshOfLive(ttl, r, token, next, user, cleaned, users, revoked, issue);
    AnswerStoresToken(ttl, r, RedeemTx(r, token), user, token, next, cleaned, users, revoked, issue, t);
  }

  /** The owner's index after it: an entry for the successor, none for the presented token if the clean-up went well. */
  lemma RefreshIndexes(ttl: int, r: Redis, token: string, next: string, user: Uuid, cleaned: bool,
      users: map<Uuid, User>, revoked: set<string>, issue: Call, t: string, u: Uuid)
    requires ttl > 0 && RedeemReply(r, token) == OK(Text(user))
    ensures IndexEntry(AfterRefresh(ttl, r, token, next, Answered(0), cleaned, users, revoked, issue), u, t)
      == if t == next && u == user && user in users && users[user].active
            && (issue.Answered? || (issue.Unanswered? && issue.lost > 0))
         then Some(Entry(next, r.now + ttl))
         else if t == token && u == user && cleaned then None else IndexEntry(r, u, t)
  {
    RefreshOfLive(ttl, r, token, next, user, cleaned, users, revoked, issue);
    AnswerIndexes(ttl, r, RedeemTx(r, token), user, token, next, cleaned, users, revoked, issue, t, u);
  }

  lemma AnswerIndexes(ttl: int, r: Redis, r0: Redis, user: Uuid, token: string, next: string, cleaned: bool,
      users: map<Uuid, User>, revoked: set<string>, issue: Call, t: string, u: Uuid)
    requires ttl > 0 && r0 == RedeemTx(r, token)
    ensures IndexEntry(AfterAnswer(ttl, r0, Success(RedemptionOK(user)), token, next, cleaned, users, revoked, issue),
        u, t)
      == if t == next && u == user && user in users && users[user].active
            && (issue.Answered? || (issue.Unanswered? && issue.lost > 0))
         then Some(Entry(next, r.now + ttl))
         else if t == token && u == user && cleaned then None else IndexEntry(r, u, t)
  {
    RedeemEffect(r, token, t, u);
    DelIndexEffect(r0, user, token, t, u);
    IssueEffect(Cleaned(r0, user, token, cleaned), user, next, ttl, t, u);
    AnswerStores(ttl, r0, user, token, next, cleaned, users, revoked, issue);
  }

  lemma RefreshOfLive(ttl: int, r: Redis, token: string, next: string, user: Uuid, cleaned: bool,
      users: map<Uuid, User>, revoked: set<string>, issue: Call)
    requires RedeemReply(r, token) == OK(Text(user))
    ensures AfterRefresh(ttl, r, token, next, Answered(0), cleaned, users, revoked, issue)
      == AfterAnswer(ttl, RedeemTx(r, token), Success(RedemptionOK(user)), token, next, cleaned, users, revoked, issue)
  {
    LiveAnswersOK(r, token, user);
  }

  /** Without an answer, and with any answer but OK and REUSED, a refresh at most consumes the presented token. */
  lemma RefreshFails(ttl: int, r: Redis, token: string, next: string, redeem: Call, cleaned: bool,
      users: map<Uuid, User>, revoked: set<string>, issue: Call, t: string, u: Uuid)
    requires RedeemResult(r, token, redeem).Failure? || RedeemResult(r, token, redeem) == Success(RedemptionInvalid)
    ensures var r' := AfterRefresh(ttl, r, token, next, redeem, cleaned, users, revoked, issue);
      && IndexEntry(r', u, t) == IndexEntry(r, u, t)
      && LiveEntry(r', t) == if t == token && UsedEntry(r, t) == None && redeem != Rejected && redeem != Unanswered(0)
        then None else LiveEntry(r, t)
  {
    RedeemEffect(r, token, t, u);
  }

  lemma AnswerStoresToken(ttl: int, r: Redis, r0: Redis, user: Uuid, token: string, next: string, cleaned: bool,
      users: map<Uuid, User>, revoked: set<string>, issue: Call, t: string)
    requires ttl > 0 && r0 == RedeemTx(r, token) && RedeemReply(r, token).OK?
    ensures LiveEntry(AfterAnswer(ttl, r0, Success(RedemptionOK(user)), token, next, cleaned, users, revoked, issue), t)
      == if t == next && user in users && users[user].active
            && (issue.Answered? || (issue.Unanswered? && issue.lost > 0))
         then Some(Entry(Text(user), r.now + ttl)) else if t == token then None else LiveEntry(r, t)
  {
    RedeemEffect(r, token, t, user);
    var r1 := Cleaned(r0, user, token, cleaned);
    DelIndexEffect(r0, user, token, t, user);
    IssueEffect(r1, user, next, ttl, t, user);
    AnswerStores(ttl, r0, user, token, next, cleaned, users, revoked, issue);
  }

  lemma AnswerStores(ttl: int, r0: Redis, user: Uuid, token: string, next: string, cleaned: bool,
      users: map<Uuid, User>, revoked: set<string>, issue: Call)
    ensures var r1 := Cleaned(r0, user, token, cleaned);
      AfterAnswer(ttl, r0, Success(RedemptionOK(user)), token, next, cleaned, users, revoked, issue)
        == if user in users && users[user].active && (issue.Answered? || (issue.Unanswered? && issue.lost > 0))
           then IssueTx(r1, user, next, ttl) else r1
  {
  }

  datatype Audit = ReuseDetected(user: Uuid) | TokenRefreshed(user: Uuid)

  class RefreshToken {
    const tokens: JWTService
    var users: map<Uuid, User>
    var audit: seq<Audit>

    constructor (tokens: JWTService, users: map<Uuid, User>)
      ensures this.tokens == tokens && this.users == users && audit == []
    {
      this.tokens, this.users, audit := tokens, users, [];
    }

    /**
     * `next` is the token GeneratePair would draw. A refresh succeeds only for a live token of an existing, active user
     * whose replies arrive; it replaces that token by one successor. A reused token sets off the revoke-all of its
     * owner's sessions, and is recorded. Every other outcome is an error, with the token consumed or the store
     * untouched.
     */
    method Execute(token: string, next: string, redeem: Call, cleaned: bool,
        runs: seq<(nat, nat -> set<string>, nat)>, issue: Call)
      returns (r: Result<string>, ghost revoked: set<string>, ghost all: bool)
      modifies this, tokens
      ensures users == old(users)
      ensures tokens.redis
        == AfterRefresh(tokens.refreshTTL, old(tokens.redis), token, next, redeem, cleaned, users, revoked, issue)
      ensures match RedeemResult(old(tokens.redis), token, redeem)
        case Failure(_) => r == Failure(ErrInvalidCredentials) && audit == old(audit) && !all
        case Success(RedemptionInvalid) => r == Failure(ErrInvalidCredentials) && audit == old(audit) && !all
        case Success(RedemptionReused(user)) =>
          var keys := IndexKeys(Consumed(old(tokens.redis), token, redeem), user);
          && r == Failure(ErrInvalidCredentials) && audit == old(audit) + [ReuseDetected(user)]
          && revoked <= keys && (all ==> revoked == keys) && (AllFail(runs) ==> !all && revoked == {})
        case Success(RedemptionOK(user)) =>
          !all
          && if user !in users then r == Failure(ErrUserNotFound) && audit == old(audit)
             else if !users[user].active then r == Failure(ErrAccountInactive) && audit == old(audit)
             else
               && r == (if issue.Answered? then Success(next) else Failure(ErrInvalidCredentials))
               && audit == old(audit) + if issue.Answered? then [TokenRefreshed(user)] else []
    {
      revoked, all := {}, false;
      var result := tokens.RedeemRefreshToken(token, redeem, cleaned);
      if result.Failure? {
        return Failure(ErrInvalidCredentials), revoked, all;
      }
      if result.value.RedemptionReused? {
        all, revoked := tokens.RevokeAllRefreshTokens(result.value.user, runs);
        audit := audit + [ReuseDetected(result.value.user)];
        return Failure(ErrInvalidCredentials), revoked, all;
      }
      if result.value.RedemptionInvalid? {
        return Failure(ErrInvalidCredentials), revoked, all;
      }
      var user := result.value.user;
      if user !in users {
        return Failure(ErrUserNotFound), revoked, all;
      }
      if !users[user].active {
        return Failure(ErrAccountInactive), revoked, all;
      }
      var pair := tokens.GeneratePair(user, next, issue);
      if pair.Failure? {
        return Failure(ErrInvalidCredentials), revoked, all;
      }
      audit := audit + [TokenRefreshed(user)];
      return Success(pair.value), revoked, all;
    }
  }

  /**
   * The rotation as the client sees it: the old token is used up, the successor is live for the same user, and every
   * other token is as before.
   */
  lemma RotationReplacesToken(r: Redis, token: string, next: string, user: Uuid, ttl: int, cleaned: bool, t: string)
    requires ttl > 0 && token != next && RedeemReply(r, token) == OK(Text(user)) && UsedEntry(r, next) == None
    ensures var consumed := RedeemTx(r, token);
      var r' := IssueTx(if cleaned then Del(consumed, UserRefreshKey(user, token)) else consumed, user, next, ttl);
      Abstract(r', t)
        == if t == token then Used(Text(user), r.now + 300_000)
           else if t == next then Live(Text(user), r.now + ttl) else Abstract(r, t)
  {
    var consumed := RedeemTx(r, token);
    RedeemEffect(r, token, t, user);
    RedeemEffect(r, token, token, user);
    DelIndexEffect(consumed, user, token, t, user);
    var r1 := if cleaned then Del(consumed, UserRefreshKey(user, token)) else consumed;
    IssueEffect(r1, user, next, ttl, t, user);
  }

  lemma RedeemKeepsIndexed(r: Redis, token: string)
    requires Indexed(r)
    ensures Indexed(RedeemTx(r, token))
  {
    var r' := RedeemTx(r, token);
    forall t | LiveEntry(r', t).Some? ensures exists u :: OwnedBy(r', t, u) {
      var anyone: Uuid := seq(16, _ => 0);
      RedeemEffect(r, token, t, anyone);
      var u :| OwnedBy(r, t, u);
      RedeemEffect(r, token, t, u);
      assert OwnedBy(r', t, u);
    }
    forall t, u | LiveEntry(r', t).Some? && IndexEntry(r', u, t).Some? ensures LiveEntry(r', t).value.value == Text(u) {
      RedeemEffect(r, token, t, u);
    }
  }

  /**
   * A live token presented once is taken for a reused one as soon as one reply is lost on the way: the completed
   * revoke-all that follows ends every session of its owner, and no other user's.
   */
  lemma LostReplyEndsSessions(r: Redis, token: string, user: Uuid, lost: nat, t: string)
    requires Indexed(r) && RedeemReply(r, token) == OK(Text(user))
    ensures RedeemResult(r, token, Answered(lost))
      == Success(if lost == 0 then RedemptionOK(user) else RedemptionReused(user))
    ensures var r' := RedeemTx(r, token);
      LiveEntry(Purge(r', user, IndexKeys(r', user)), t)
        == (if LiveEntry(r, t).Some? && LiveEntry(r, t).value.value == Text(user) then None else LiveEntry(r, t))
  {
    ParseRoundTrip(user);
    RedeemKeepsIndexed(r, token);
    RedeemEffect(r, token, t, user);
    RedeemEffect(r, token, token, user);
    PurgeAllKillsExactlyTheUsers(RedeemTx(r, token), user, t);
  }

  /** A new store in which the user has logged in with the token `a`. */
  function FirstStore(user: Uuid, a: string, ttl: int): Redis { IssueTx(Redis(map[], 0), user, a, ttl) }

  lemma FirstStoreAnswers(user: Uuid, a: string, b: string, ttl: int)
    requires ttl > 0
    ensures var r := FirstStore(user, a, ttl);
      r.now == 0 && RedeemReply(r, a) == OK(Text(user)) && UsedEntry(r, b) == None && Parse(Text(user)) == Some(user)
  {
    IssueEffect(Redis(map[], 0), user, a, ttl, a, user);
    IssueEffect(Redis(map[], 0), user, a, ttl, b, user);
    ParseRoundTrip(user);
  }

  /** The store after `a` has been rotated to `b`. */
  function Rotated(r: Redis, user: Uuid, a: string, b: string, ttl: int): Redis {
    IssueTx(Cleaned(RedeemTx(r, a), user, a, true), user, b, ttl)
  }

  /** Then `a` is a reused token, and `b` a live one. */
  lemma RotatedAnswers(r: Redis, a: string, b: string, user: Uuid, ttl: int)
    requires ttl > 0 && a != b && RedeemReply(r, a) == OK(Text(user)) && UsedEntry(r, b) == None
    ensures var r' := Rotated(r, user, a, b, ttl);
      RedeemReply(r', a) == Reused(Text(user)) && LiveEntry(r', b) == Some(Entry(Text(user), r.now + ttl))
  {
    var r1 := RedeemTx(r, a);
    var r2, r' := Cleaned(r1, user, a, true), Rotated(r, user, a, b, ttl);
    assert UsedEntry(r', a).Some? && UsedEntry(r', a).value.value == Text(user) by {
      RedeemEffect(r, a, a, user);
      DelIndexEffect(r1, user, a, a, user);
      IssueEffect(r2, user, b, ttl, a, user);
    }
    UsedAnswersReused(r', a, Text(user));
    IssueEffect(r2, user, b, ttl, b, user);
    assert r2.now == r.now by { RedeemEffect(r, a, a, user); }
  }

  lemma UsedAnswersReused(r: Redis, token: string, text: string)
    requires UsedEntry(r, token).Some? && UsedEntry(r, token).value.value == text
    ensures RedeemReply(r, token) == Reused(text)
  {
  }

  lemma LiveAnswersOK(r: Redis, a: string, user: Uuid)
    requires RedeemReply(r, a) == OK(Text(user))
    ensures RedeemResult(r, a, Answered(0)) == Success(RedemptionOK(user))
    ensures Consumed(r, a, Answered(0)) == RedeemTx(r, a)
  {
    ParseRoundTrip(user);
  }

  lemma RotationStore(ttl: int, r: Redis, a: string, b: string, user: Uuid, users: map<Uuid, User>,
      revoked: set<string>)
    requires RedeemResult(r, a, Answered(0)) == Success(RedemptionOK(user)) && user in users && users[user].active
    ensures AfterRefresh(ttl, r, a, b, Answered(0), true, users, revoked, Answered(0)) == Rotated(r, user, a, b, ttl)
  {
  }

  /** A refresh that goes well. */
  method Rotate(refresh: RefreshToken, user: Uuid, a: string, b: string)
    requires RedeemReply(refresh.tokens.redis, a) == OK(Text(user))
    requires user in refresh.users && refresh.users[user].active
    modifies refresh, refresh.tokens
    ensures refresh.tokens.redis == Rotated(old(refresh.tokens.redis), user, a, b, refresh.tokens.refreshTTL)
    ensures refresh.audit == old(refresh.audit) + [TokenRefreshed(user)]
  {
    ghost var r := refresh.tokens.redis;
    LiveAnswersOK(r, a, user);
    var result;
    ghost var revoked, all;
    result, revoked, all := refresh.Execute(a, b, Answered(0), true, [], Answered(0));
    RotationStore(refresh.tokens.refreshTTL, r, a, b, user, refresh.users, revoked);
  }

  method LogIn(user: Uuid, a: string, b: string, ttl: int) returns (tokens: JWTService)
    requires ttl > 0
    ensures fresh(tokens) && tokens.refreshTTL == ttl && tokens.redis.now == 0
    ensures RedeemReply(tokens.redis, a) == OK(Text(user)) && UsedEntry(tokens.redis, b) == None
  {
    tokens := new JWTService(ttl);
    var pair := tokens.GeneratePair(user, a, Answered(0));
    FirstStoreAnswers(user, a, b, ttl);
  }

  method LogInAndRotate(user: Uuid, a: string, b: string, ttl: int) returns (refresh: RefreshToken)
    requires ttl > 0 && a != b
    ensures fresh(refresh) && fresh(refresh.tokens) && refresh.audit == [TokenRefreshed(user)]
    ensures RedeemReply(refresh.tokens.redis, a) == Reused(Text(user))
    ensures LiveEntry(refresh.tokens.redis, b) == Some(Entry(Text(user), ttl))
  {
    var tokens := LogIn(user, a, b, ttl);
    RotatedAnswers(tokens.redis, a, b, user, ttl);
    refresh := new RefreshToken(tokens, map[user := User(user, true)]);
    Rotate(refresh, user, a, b);
  }

  lemma ReusedLeavesStore(r: Redis, a: string, user: Uuid)
    requires RedeemReply(r, a) == Reused(Text(user))
    ensures RedeemResult(r, a, Answered(0)) == Success(RedemptionReused(user))
    ensures Consumed(r, a, Answered(0)) == r && Purge(r, user, {}) == r
  {
    ParseRoundTrip(user);
  }

  /** A reused token is presented while the store does not answer scans: nothing is revoked, the event is recorded. */
  method PresentReused(refresh: RefreshToken, a: string, c: string, user: Uuid)
    requires RedeemReply(refresh.tokens.redis, a) == Reused(Text(user))
    modifies refresh, refresh.tokens
    ensures refresh.tokens.redis == old(refresh.tokens.redis)
    ensures refresh.audit == old(refresh.audit) + [ReuseDetected(user)]
  {
    ReusedLeavesStore(refresh.tokens.redis, a, user);
    var result;
    ghost var revoked, all;
    result, revoked, all := refresh.Execute(a, c, Answered(0), true, [(0, _ => {}, 0)], Answered(0));
  }

  /**
   * The audit event of a reuse, "all sessions revoked", is recorded whether they were or not. From a new store: a user
   * logs in with the token `a`, rotates it to `b`, and `a` is presented again while the store does not answer scans.
   * The event is recorded, and `b` is live.
   */
  method FailedRevokeIsRecorded(user: Uuid, a: string, b: string, c: string, ttl: int) returns (refresh: RefreshToken)
    requires ttl > 0 && a != b
    ensures refresh.audit == [TokenRefreshed(user), ReuseDetected(user)]
    ensures LiveEntry(refresh.tokens.redis, b) == Some(Entry(Text(user), ttl))
  {
    refresh := LogInAndRotate(user, a, b, ttl);
    PresentReused(refresh, a, c, user);
  }
}
