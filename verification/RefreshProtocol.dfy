/**
 * The refresh-token protocol of jwt_service.go and refresh_token.go as a machine: any number of callers, each between
 * two Redis round trips, over one store. Every transition is one round trip (or one scan reply, or the passing of
 * time).
 */
module RefreshProtocol {
  import opened Common
  import opened Uuids
  import opened RedisStore

  /**
   * What is known of a token once its text has been drawn. `root` is the login or registration its lineage began with.
   */
  datatype TokenInfo = TokenInfo(owner: Uuid, root: string, parent: Option<string>, born: nat)

  /**
   * A caller that holds something between two round trips. `cause` is the reused token that set off the revoke-all, if
   * the refresh use case began it.
   */
  datatype Caller =
    | Issuing(user: Uuid, token: string)    // in GeneratePair: the token is drawn, and not yet returned
    | Redeemed(user: Uuid, token: string)   // got OK for the token; index clean-up, user lookup and reissue are ahead
    | Caught(user: Uuid, token: string)     // got REUSED for the token; the revoke-all is ahead
    // in the scan loop
    | Revoking(user: Uuid, cause: Option<string>, since: nat, must: set<string>, batch: set<string>)

  /**
   * The store, and what has happened: tokens drawn, the number of issuing transactions so far and the number of the
   * latest one for each token, the tokens the redeem script answered OK for, in order, and the callers.
   */
  datatype State = State(redis: Redis, issued: map<string, TokenInfo>, writes: nat, written: map<string, nat>,
                         answered: seq<string>, callers: map<nat, Caller>)

  datatype Step =
    | Login(id: nat, user: Uuid, token: string)          // login and register: GeneratePair draws a fresh token
    | WriteToken(id: nat)                                // the issuing transaction runs, first time or again
    | Redeem(token: string, receiver: Option<nat>)       // the script runs; its reply reaches a caller or is lost
    | CleanIndex(user: Uuid, token: string)              // the follow-up delete of a redeemed token's index entry
    | Reissue(id: nat, token: string)                    // a redeemed caller enters GeneratePair
    | RevokeOne(token: string)                           // RevokeRefreshToken
    | RevokeReused(id: nat)                              // a caller told REUSED sends its first scan
    | StartRevoke(id: nat, user: Uuid)                   // RevokeAllRefreshTokens for any user sends its first scan
    | RestartRevoke(id: nat)                             // it failed half way and is tried again
    | ScanReply(id: nat, keys: set<string>)              // one batch of keys
    | Lapse(id: nat, key: string)                        // a key has been absent: the scan need not return it
    | RevokeKey(id: nat, key: string)                    // the transaction for one key of the batch
    | FinishRevoke(id: nat)                              // cursor 0: the loop returns nil
    | Leave(id: nat)                                     // a caller returns, fails or is given up
    | Elapse(ms: nat)

  ghost predicate InFlight(s: State, token: string) {
    exists id :: id in s.callers && s.callers[id].Issuing? && s.callers[id].token == token
  }

  /**
   * Drawn tokens are fresh, and nobody presents a token before the call that issues it is over. A scan is over only
   * when every matching key that was there from its start, and never absent, has been returned.
   */
  ghost predicate Enabled(s: State, e: Step) {
    match e
    case Login(id, _, token) => id !in s.callers && token !in s.issued
    case WriteToken(id) => id in s.callers && s.callers[id].Issuing?
    case Redeem(token, receiver) => !InFlight(s, token) && (receiver.Some? ==> receiver.value !in s.callers)
    case CleanIndex(_, token) => token in s.answered
    case Reissue(id, token) => id in s.callers && s.callers[id].Redeemed? && token !in s.issued
    case RevokeOne(_) => true
    case RevokeReused(id) => id in s.callers && s.callers[id].Caught?
    case StartRevoke(id, _) => id !in s.callers
    case RestartRevoke(id) => id in s.callers && s.callers[id].Revoking?
    case ScanReply(id, keys) =>
      id in s.callers && s.callers[id].Revoking? && s.callers[id].batch == {}
        && keys <= IndexKeys(s.redis, s.callers[id].user)
    case Lapse(id, key) =>
      id in s.callers && s.callers[id].Revoking? && key in s.callers[id].must && Peek(s.redis, key).None?
    case RevokeKey(id, key) => id in s.callers && s.callers[id].Revoking? && key in s.callers[id].batch
    case FinishRevoke(id) =>
      id in s.callers && s.callers[id].Revoking? && s.callers[id].must == {} && s.callers[id].batch == {}
    case Leave(id) => id in s.callers
    case Elapse(_) => true
  }

  function FreshScan(s: State, user: Uuid, cause: Option<string>): Caller {
    Revoking(user, cause, s.writes, IndexKeys(s.redis, user), {})
  }

  /** The script has run and answered `reply`; an OK or REUSED that arrives and can be parsed makes a caller. */
  function Answered(s: State, token: string, receiver: Option<nat>, reply: Reply): (s': State)
    ensures s' == s.(answered := s'.answered, callers := s'.callers)
    ensures s'.answered == if reply.OK? then s.answered + [token] else s.answered
  {
    match reply
    case OK(text) =>
      var s' := s.(answered := s.answered + [token]);
      (match (receiver, Parse(text))
       case (Some(id), Some(user)) => s'.(callers := s.callers[id := Redeemed(user, token)])
       case _ => s')
    case Reused(text) =>
      (match (receiver, Parse(text))
       case (Some(id), Some(user)) => s.(callers := s.callers[id := Caught(user, token)])
       case _ => s)
    case Invalid => s
  }

  ghost function Apply(ttl: int, s: State, e: Step): State
    requires Enabled(s, e)
  {
    match e
    case Login(id, user, token) =>
      s.(issued := s.issued[token := TokenInfo(user, token, None, |s.issued|)],
         callers := s.callers[id := Issuing(user, token)])
    case WriteToken(id) =>
      var c := s.callers[id];
      s.(redis := IssueTx(s.redis, c.user, c.token, ttl), writes := s.writes + 1,
        written := s.written[c.token := s.writes])
    case Redeem(token, receiver) =>
      Answered(s.(redis := RedeemTx(s.redis, token)), token, receiver, RedeemReply(s.redis, token))
    case CleanIndex(user, token) => s.(redis := Del(s.redis, UserRefreshKey(user, token)))
    case Reissue(id, token) =>
      var c := s.callers[id];
      var root := if c.token in s.issued then s.issued[c.token].root else token;
      s.(issued := s.issued[token := TokenInfo(c.user, root, Some(c.token), |s.issued|)],
         callers := s.callers[id := Issuing(c.user, token)])
    case RevokeOne(token) => s.(redis := Del(s.redis, RefreshKey(token)))
    case RevokeReused(id) =>
      s.(callers := s.callers[id := FreshScan(s, s.callers[id].user, Some(s.callers[id].token))])
    case StartRevoke(id, user) => s.(callers := s.callers[id := FreshScan(s, user, None)])
    case RestartRevoke(id) => s.(callers := s.callers[id := FreshScan(s, s.callers[id].user, s.callers[id].cause)])
    case ScanReply(id, keys) =>
      var c := s.callers[id];
      s.(callers := s.callers[id := c.(must := c.must - keys, batch := keys)])
    case Lapse(id, key) =>
      var c := s.callers[id];
      s.(callers := s.callers[id := c.(must := c.must - {key})])
    case RevokeKey(id, key) =>
      var c := s.callers[id];
      s.(redis := RevokeTx(s.redis, c.user, key), callers := s.callers[id := c.(batch := c.batch - {key})])
    case FinishRevoke(id) => s.(callers := s.callers - {id})
    case Leave(id) => s.(callers := s.callers - {id})
    case Elapse(ms) => s.(redis := Tick(s.redis, ms))
  }

  ghost predicate LegalRun(ttl: int, s: State, es: seq<Step>)
    decreases |es|
  {
    es == [] || (Enabled(s, es[0]) && LegalRun(ttl, Apply(ttl, s, es[0]), es[1..]))
  }

  ghost function Run(ttl: int, s: State, es: seq<Step>): State
    requires LegalRun(ttl, s, es)
    decreases |es|
  {
    if es == [] then s else Run(ttl, Apply(ttl, s, es[0]), es[1..])
  }

  const START := State(Redis(map[], 0), map[], 0, map[], [], map[])

  // ---- the invariant

  /**
   * The store agrees with what happened to token `t`; in particular a live token has an index entry that outlasts it.
   */
  ghost predicate TokenKept(s: State, t: string) {
    var live, used := LiveEntry(s.redis, t), UsedEntry(s.redis, t);
    && (live.Some? ==>
          && t in s.issued && t in s.written && t !in s.answered && live.value.value == Text(s.issued[t].owner)
          && var index := IndexEntry(s.redis, s.issued[t].owner, t);
             index.Some? && index.value.deadline >= live.value.deadline)
    && (used.Some? ==> t in s.issued && t in s.answered && used.value.value == Text(s.issued[t].owner))
  }

  /** Each token is its own lineage's beginning, or the one successor of a redeemed token of the same owner. */
  ghost predicate LineageKept(issued: map<string, TokenInfo>, answered: seq<string>) {
    && (forall t :: t in answered ==> t in issued)
    && (forall t :: t in issued ==> issued[t].born < |issued| && RootKept(issued, t) && ParentKept(issued, answered, t))
    && (forall t, t' :: t in issued && t' in issued && t != t' ==> BranchKept(issued, answered, t, t'))
  }

  ghost predicate RootKept(issued: map<string, TokenInfo>, t: string)
    requires t in issued
  {
    var root := issued[t].root;
    root in issued && issued[root].owner == issued[t].owner && issued[root].parent == None && issued[root].root == root
  }

  ghost predicate ParentKept(issued: map<string, TokenInfo>, answered: seq<string>, t: string)
    requires t in issued
  {
    match issued[t].parent
    case None => issued[t].root == t
    case Some(p) =>
      p in issued && p in answered && issued[p].owner == issued[t].owner && issued[p].root == issued[t].root
      && issued[p].born < issued[t].born
  }

  ghost predicate BranchKept(issued: map<string, TokenInfo>, answered: seq<string>, t: string, t': string)
    requires t in issued && t' in issued
  {
    && (issued[t].parent.Some? ==> issued[t].parent != issued[t'].parent)
    && (issued[t].root == issued[t'].root ==> t in answered || t' in answered)
    && issued[t].born != issued[t'].born
  }

  /** An index key of `user`, for a token of that user. */
  ghost predicate OwnIndexKey(issued: map<string, TokenInfo>, user: Uuid, key: string) {
    HasPrefix(key, UserRefreshKeyPrefix(user))
    && var t := TrimPrefix(key, UserRefreshKeyPrefix(user)); t in issued && issued[t].owner == user
  }

  /** A user's index lists that user's tokens only. */
  ghost predicate IndexKept(s: State, user: Uuid, t: string) {
    IndexEntry(s.redis, user, t).Some? ==> t in s.issued && s.issued[t].owner == user
  }

  /** A live token of `user` whose latest issuing transaction came before number `since`. */
  ghost predicate OldAndLive(s: State, user: Uuid, since: nat, t: string) {
    LiveEntry(s.redis, t).Some? && t in s.issued && s.issued[t].owner == user && t in s.written && s.written[t] < since
  }

  ghost predicate WasRedeemed(s: State, user: Uuid, t: string) {
    t in s.issued && s.issued[t].owner == user && t in s.answered
  }

  ghost predicate CallerKept(s: State, c: Caller) {
    match c
    case Issuing(user, t) => t in s.issued && s.issued[t].owner == user && t !in s.answered
    case Redeemed(user, t) =>
      && t in s.issued && s.issued[t].owner == user && t in s.answered
      && (forall d :: d in s.issued ==> s.issued[d].parent != Some(t))
      && (forall d :: d in s.issued && s.issued[d].root == s.issued[t].root ==> d in s.answered)
    case Caught(user, t) => WasRedeemed(s, user, t)
    case Revoking(user, cause, since, must, batch) =>
      && since <= s.writes
      && (cause.Some? ==> WasRedeemed(s, user, cause.value))
      && (forall k :: k in must + batch ==> OwnIndexKey(s.issued, user, k))
      && (forall t :: OldAndLive(s, user, since, t) ==> UserRefreshKey(user, t) in must + batch)
  }

  ghost predicate CallersApart(s: State, c: Caller, c': Caller) {
    && (c.Issuing? && c'.Issuing? ==> c.token != c'.token)
    && (c.Redeemed? && c'.Redeemed? && c.token in s.issued && c'.token in s.issued ==>
          s.issued[c.token].root != s.issued[c'.token].root)
  }

  /** Only drawn tokens are written, each with a number already passed. */
  ghost predicate WritesKept(s: State) { forall t :: t in s.written ==> t in s.issued && s.written[t] < s.writes }

  ghost predicate Inv(s: State) {
    && Distinct(s.answered)
    && LineageKept(s.issued, s.answered)
    && WritesKept(s)
    && (forall t :: TokenKept(s, t))
    && (forall u, t :: IndexKept(s, u, t))
    && (forall id :: id in s.callers ==> CallerKept(s, s.callers[id]))
    && (forall id, id' :: id in s.callers && id' in s.callers && id != id' ==>
      CallersApart(s, s.callers[id], s.callers[id']))
  }

  // ---- every step keeps it

  lemma StartKept()
    ensures Inv(START)
  {
  }

  lemma WriteTokenKept(ttl: int, s: State, id: nat, t: string)
    requires ttl > 0 && Enabled(s, WriteToken(id)) && TokenKept(s, t) && CallerKept(s, s.callers[id])
    ensures TokenKept(Apply(ttl, s, WriteToken(id)), t)
  {
    var c := s.callers[id];
    IssueEffect(s.redis, c.user, c.token, ttl, t, if t in s.issued then s.issued[t].owner else c.user);
  }

  lemma RedeemKept(ttl: int, s: State, token: string, receiver: Option<nat>, t: string)
    requires Enabled(s, Step.Redeem(token, receiver)) && TokenKept(s, t) && TokenKept(s, token)
    ensures TokenKept(Apply(ttl, s, Step.Redeem(token, receiver)), t)
  {
    RedeemEffect(s.redis, token, t, if t in s.issued then s.issued[t].owner else seq(16, _ => 0));
    var s' := Apply(ttl, s, Step.Redeem(token, receiver));
    assert forall x :: x in s'.answered <==> x in s.answered || (RedeemReply(s.redis, token).OK? && x == token);
  }

  lemma CleanIndexKept(ttl: int, s: State, user: Uuid, token: string, t: string)
    requires Enabled(s, CleanIndex(user, token)) && TokenKept(s, t)
    ensures TokenKept(Apply(ttl, s, CleanIndex(user, token)), t)
  {
    DelIndexEffect(s.redis, user, token, t, if t in s.issued then s.issued[t].owner else user);
  }

  lemma RevokeOneKept(ttl: int, s: State, token: string, t: string)
    requires Enabled(s, RevokeOne(token)) && TokenKept(s, t)
    ensures TokenKept(Apply(ttl, s, RevokeOne(token)), t)
  {
    DelLiveEffect(s.redis, token, t, if t in s.issued then s.issued[t].owner else seq(16, _ => 0));
  }

  lemma StepIndex(ttl: int, s: State, e: Step, u: Uuid, t: string)
    requires ttl > 0 && Enabled(s, e) && ActorKept(s, e) && IndexKept(s, u, t)
    ensures IndexKept(Apply(ttl, s, e), u, t)
  {
    match e {
      case WriteToken(id) => IssueEffect(s.redis, s.callers[id].user, s.callers[id].token, ttl, t, u);
      case Redeem(token, _) => RedeemEffect(s.redis, token, t, u);
      case CleanIndex(user, token) => DelIndexEffect(s.redis, user, token, t, u);
      case RevokeOne(token) => DelLiveEffect(s.redis, token, t, u);
      case RevokeKey(id, key) =>
        var token := BatchKey(s, id, key);
        RevokeEffect(s.redis, s.callers[id].user, token, t, u);
      case Elapse(ms) => TickEffect(s.redis, ms, t, u);
      case _ =>
    }
  }

  /** A batch holds only the user's own index keys. */
  lemma BatchKey(s: State, id: nat, key: string) returns (token: string)
    requires Enabled(s, RevokeKey(id, key)) && CallerKept(s, s.callers[id])
    ensures key == UserRefreshKey(s.callers[id].user, token)
    ensures token in s.issued && s.issued[token].owner == s.callers[id].user
  {
    var c := s.callers[id];
    assert key in c.must + c.batch;
    token := TrimPrefix(key, UserRefreshKeyPrefix(c.user));
    PrefixSelectsUser(c.user, c.user, token, key);
  }

  lemma RevokeKeyKept(ttl: int, s: State, id: nat, key: string, t: string)
    requires Enabled(s, RevokeKey(id, key)) && TokenKept(s, t) && CallerKept(s, s.callers[id])
    ensures TokenKept(Apply(ttl, s, RevokeKey(id, key)), t)
  {
    var user := s.callers[id].user;
    var token := BatchKey(s, id, key);
    RevokeEffect(s.redis, user, token, t, if t in s.issued then s.issued[t].owner else user);
  }

  lemma ElapseKept(ttl: int, s: State, ms: nat, t: string)
    requires TokenKept(s, t)
    ensures TokenKept(Apply(ttl, s, Elapse(ms)), t)
  {
    TickEffect(s.redis, ms, t, if t in s.issued then s.issued[t].owner else seq(16, _ => 0));
  }

  lemma StepTokens(ttl: int, s: State, e: Step, t: string)
    requires ttl > 0 && Inv(s) && Enabled(s, e)
    ensures TokenKept(Apply(ttl, s, e), t)
  {
    assert TokenKept(s, t);
    match e {
      case WriteToken(id) => WriteTokenKept(ttl, s, id, t);
      case Redeem(token, receiver) => RedeemKept(ttl, s, token, receiver, t);
      case CleanIndex(user, token) => CleanIndexKept(ttl, s, user, token, t);
      case RevokeOne(token) => RevokeOneKept(ttl, s, token, t);
      case RevokeKey(id, key) => RevokeKeyKept(ttl, s, id, key, t);
      case Elapse(ms) => ElapseKept(ttl, s, ms, t);
      case _ =>
    }
  }

  lemma RedeemLineage(s: State, token: string)
    requires LineageKept(s.issued, s.answered) && Distinct(s.answered) && token in s.issued && token !in s.answered
    ensures LineageKept(s.issued, s.answered + [token]) && Distinct(s.answered + [token])
  {
    var answered := s.answered + [token];
    assert forall t :: t in answered <==> t in s.answered || t == token;
    forall t | t in s.issued ensures RootKept(s.issued, t) && ParentKept(s.issued, answered, t) {
      assert RootKept(s.issued, t) && ParentKept(s.issued, s.answered, t);
    }
    forall t, t' | t in s.issued && t' in s.issued && t != t' ensures BranchKept(s.issued, answered, t, t') {
      assert BranchKept(s.issued, s.answered, t, t');
    }
  }

  /** What a step does to the history of drawn and redeemed tokens. */
  lemma StepLineage(ttl: int, s: State, e: Step)
    requires Inv(s) && Enabled(s, e)
    ensures var s' := Apply(ttl, s, e); LineageKept(s'.issued, s'.answered) && Distinct(s'.answered)
  {
    match e {
      case Redeem(token, _) =>
        if RedeemReply(s.redis, token).OK? {
          RedeemOKIsFirst(s, token);
          RedeemLineage(s, token);
        }
      case Login(_, user, token) => LoginLineage(s, s.issued[token := TokenInfo(user, token, None, |s.issued|)], token);
      case Reissue(id, token) =>
        assert CallerKept(s, s.callers[id]);
        ReissueLineage(s, Apply(ttl, s, e).issued, s.callers[id].token, token);
      case _ =>
    }
  }

  lemma LoginLineage(s: State, issued: map<string, TokenInfo>, token: string)
    requires LineageKept(s.issued, s.answered) && token !in s.issued
    requires token in issued && issued == s.issued[token := issued[token]]
    requires issued[token].root == token && issued[token].parent == None && issued[token].born == |s.issued|
    ensures LineageKept(issued, s.answered)
  {
    assert |issued| == |s.issued| + 1;
    forall t | t in issued ensures RootKept(issued, t) && ParentKept(issued, s.answered, t) {
      if t != token {
        assert RootKept(s.issued, t) && ParentKept(s.issued, s.answered, t);
      }
    }
    forall t, t' | t in issued && t' in issued && t != t' ensures BranchKept(issued, s.answered, t, t') {
      if t != token && t' != token {
        assert BranchKept(s.issued, s.answered, t, t');
      } else {
        var other := if t == token then t' else t;
        assert RootKept(s.issued, other);
      }
    }
  }

  lemma ReissueLineage(s: State, issued: map<string, TokenInfo>, parent: string, token: string)
    requires LineageKept(s.issued, s.answered) && token !in s.issued
    requires parent in s.issued && parent in s.answered
    requires issued
      == s.issued[token := TokenInfo(s.issued[parent].owner, s.issued[parent].root, Some(parent), |s.issued|)]
    requires forall d :: d in s.issued ==> s.issued[d].parent != Some(parent)
    requires forall d :: d in s.issued && s.issued[d].root == s.issued[parent].root ==> d in s.answered
    ensures LineageKept(issued, s.answered)
  {
    assert |issued| == |s.issued| + 1;
    assert RootKept(s.issued, parent);
    forall t | t in issued ensures RootKept(issued, t) && ParentKept(issued, s.answered, t) {
      if t != token {
        assert RootKept(s.issued, t) && ParentKept(s.issued, s.answered, t);
      }
    }
    forall t, t' | t in issued && t' in issued && t != t' ensures BranchKept(issued, s.answered, t, t') {
      if t != token && t' != token {
        assert BranchKept(s.issued, s.answered, t, t');
      }
    }
  }

  /** A token answered OK is live, and was never answered OK before. */
  lemma RedeemOKIsFirst(s: State, token: string)
    requires Inv(s) && RedeemReply(s.redis, token).OK?
    ensures token in s.issued && token !in s.answered
    ensures RedeemReply(s.redis, token) == OK(Text(s.issued[token].owner))
    ensures Parse(RedeemReply(s.redis, token).user) == Some(s.issued[token].owner)
  {
    var anyone: Uuid := seq(16, _ => 0);
    RedeemEffect(s.redis, token, token, anyone);
    assert TokenKept(s, token);
    ParseRoundTrip(s.issued[token].owner);
  }

  /** A token answered REUSED was answered OK before, and the answer names its owner. */
  lemma ReusedNamesOwner(s: State, token: string)
    requires TokenKept(s, token) && RedeemReply(s.redis, token).Reused?
    ensures token in s.issued && token in s.answered
    ensures RedeemReply(s.redis, token) == Reused(Text(s.issued[token].owner))
    ensures Parse(RedeemReply(s.redis, token).user) == Some(s.issued[token].owner)
  {
    var anyone: Uuid := seq(16, _ => 0);
    RedeemEffect(s.redis, token, token, anyone);
    ParseRoundTrip(s.issued[token].owner);
  }

  /** The caller whose step it is, if the step has one. */
  function Actor(e: Step): Option<nat> {
    match e
    case WriteToken(id) => Some(id)
    case Reissue(id, _) => Some(id)
    case RevokeReused(id) => Some(id)
    case RestartRevoke(id) => Some(id)
    case ScanReply(id, _) => Some(id)
    case Lapse(id, _) => Some(id)
    case RevokeKey(id, _) => Some(id)
    case FinishRevoke(id) => Some(id)
    case Leave(id) => Some(id)
    case _ => None
  }

  ghost predicate ActorKept(s: State, e: Step)
    requires Enabled(s, e)
  {
    Actor(e).Some? ==> CallerKept(s, s.callers[Actor(e).value])
  }

  /** Only the issuing transaction makes a token live; and it renews its write number. */
  lemma StepLive(ttl: int, s: State, e: Step, t: string)
    requires ttl > 0 && TokenKept(s, t) && Enabled(s, e) && ActorKept(s, e)
    ensures var s' := Apply(ttl, s, e);
      LiveEntry(s'.redis, t).Some? ==>
        t in s.issued && t in s'.written
        && (s'.written[t] == s.writes
            || (LiveEntry(s.redis, t).Some? && t in s.written && s'.written[t] == s.written[t]))
  {
    var anyone: Uuid := seq(16, _ => 0);
    match e {
      case WriteToken(id) => IssueEffect(s.redis, s.callers[id].user, s.callers[id].token, ttl, t, anyone);
      case Redeem(token, _) => RedeemEffect(s.redis, token, t, anyone);
      case CleanIndex(user, token) => DelIndexEffect(s.redis, user, token, t, anyone);
      case RevokeOne(token) => DelLiveEffect(s.redis, token, t, anyone);
      case RevokeKey(id, key) =>
        var token := BatchKey(s, id, key);
        RevokeEffect(s.redis, s.callers[id].user, token, t, anyone);
      case Elapse(ms) => TickEffect(s.redis, ms, t, anyone);
      case _ =>
    }
  }

  /** Tokens once drawn, answers once given and write numbers once reached stay. */
  lemma StepGrows(ttl: int, s: State, e: Step, t: string)
    requires Enabled(s, e)
    ensures var s' := Apply(ttl, s, e);
      && s.writes <= s'.writes
      && (t in s.issued ==> t in s'.issued && s'.issued[t] == s.issued[t])
      && (t in s.answered ==> t in s'.answered)
      && (t in s'.issued && t !in s.issued ==> (e.Login? || e.Reissue?) && t == e.token)
  {
  }

  /** A caller whose own record the step does not touch: first, one that is issuing. */
  lemma IssuingKept(ttl: int, s: State, e: Step, c: Caller)
    requires Enabled(s, e) && CallerKept(s, c) && c.Issuing? && (e.Redeem? ==> e.token != c.token)
    ensures CallerKept(Apply(ttl, s, e), c)
  {
  }

  lemma RedeemedKept(ttl: int, s: State, e: Step, c: Caller)
    requires Enabled(s, e) && ActorKept(s, e) && CallerKept(s, c) && c.Redeemed? && RootKept(s.issued, c.token)
    requires e.Reissue? ==> CallersApart(s, s.callers[e.id], c)
    ensures CallerKept(Apply(ttl, s, e), c)
  {
    var s' := Apply(ttl, s, e);
    StepGrows(ttl, s, e, c.token);
    forall d | d in s'.issued
      ensures s'.issued[d].parent != Some(c.token)
      ensures s'.issued[d].root == s'.issued[c.token].root ==> d in s'.answered
    {
      StepGrows(ttl, s, e, d);
    }
  }

  lemma CaughtKept(ttl: int, s: State, e: Step, c: Caller)
    requires Enabled(s, e) && CallerKept(s, c) && c.Caught?
    ensures CallerKept(Apply(ttl, s, e), c)
  {
    StepGrows(ttl, s, e, c.token);
  }

  lemma RevokingKept(ttl: int, s: State, e: Step, c: Caller)
    requires ttl > 0 && Inv(s) && Enabled(s, e) && CallerKept(s, c) && c.Revoking?
    ensures CallerKept(Apply(ttl, s, e), c)
  {
    var s' := Apply(ttl, s, e);
    assert ActorKept(s, e);
    StepGrows(ttl, s, e, if c.cause.Some? then c.cause.value else "");
    forall t | OldAndLive(s', c.user, c.since, t) ensures UserRefreshKey(c.user, t) in c.must + c.batch {
      assert TokenKept(s, t);
      StepLive(ttl, s, e, t);
      StepGrows(ttl, s, e, t);
      assert OldAndLive(s, c.user, c.since, t);
    }
    forall k | k in c.must + c.batch ensures OwnIndexKey(s'.issued, c.user, k) {
      assert OwnIndexKey(s.issued, c.user, k);
      StepGrows(ttl, s, e, TrimPrefix(k, UserRefreshKeyPrefix(c.user)));
    }
  }

  lemma Receives(s: State, token: string, id: nat, reply: Reply)
    requires id !in s.callers
    ensures var s' := Answered(s, token, Some(id), reply);
      && (id in s'.callers <==> !reply.Invalid? && Parse(reply.user).Some?)
      && (id in s'.callers ==>
            var user := Parse(reply.user).value;
            s'.callers[id] == if reply.OK? then Redeemed(user, token) else Caught(user, token))
  {
    if !reply.Invalid? {
      var parsed := Parse(reply.user);
      assert parsed == None || parsed.Some?;
    }
  }

  lemma ReceiverKept(ttl: int, s: State, token: string, id: nat)
    requires Inv(s) && Enabled(s, Step.Redeem(token, Some(id)))
    requires id in Apply(ttl, s, Step.Redeem(token, Some(id))).callers
    ensures var s' := Apply(ttl, s, Step.Redeem(token, Some(id))); CallerKept(s', s'.callers[id])
  {
    Receives(s.(redis := RedeemTx(s.redis, token)), token, id, RedeemReply(s.redis, token));
    var s' := Apply(ttl, s, Step.Redeem(token, Some(id)));
    if RedeemReply(s.redis, token).OK? {
      RedeemOKIsFirst(s, token);
      assert CallerKept(s', Redeemed(s.issued[token].owner, token)) by { FirstAnswerKept(s, s', token); }
    } else {
      assert TokenKept(s, token);
      ReusedNamesOwner(s, token);
    }
  }

  lemma NewIssueKept(ttl: int, s: State, e: Step)
    requires Inv(s) && Enabled(s, e) && (e.Login? || e.Reissue?)
    ensures CallerKept(Apply(ttl, s, e), Apply(ttl, s, e).callers[e.id])
  {
    assert e.token !in s.answered;
  }

  lemma CallersIrrelevant(s: State, s': State, c: Caller)
    requires s' == s.(callers := s'.callers) && CallerKept(s, c)
    ensures CallerKept(s', c)
  {
  }

  /** Steps that only change the record of a revoking caller. */
  lemma ScanStepKept(ttl: int, s: State, e: Step, id: nat)
    requires Inv(s) && Enabled(s, e)
    requires (e.RevokeReused? || e.StartRevoke? || e.RestartRevoke? || e.ScanReply? || e.Lapse?) && e.id == id
    ensures CallerKept(Apply(ttl, s, e), Apply(ttl, s, e).callers[id])
  {
    var s' := Apply(ttl, s, e);
    match e {
      case RevokeReused(_) =>
        assert CallerKept(s, s.callers[id]);
        FreshScanKept(s, s.callers[id].user, Some(s.callers[id].token));
      case StartRevoke(_, user) => FreshScanKept(s, user, None);
      case RestartRevoke(_) =>
        assert CallerKept(s, s.callers[id]);
        FreshScanKept(s, s.callers[id].user, s.callers[id].cause);
      case ScanReply(_, keys) => ScanReplyKept(s, s.callers[id], keys);
      case Lapse(_, key) => LapseKept(s, s.callers[id], key);
    }
    assert CallerKept(s, s'.callers[id]);
    CallersIrrelevant(s, s', s'.callers[id]);
  }

  /** The record of a caller the step creates. */
  lemma NewcomerKept(ttl: int, s: State, e: Step, id: nat)
    requires ttl > 0 && Inv(s) && Enabled(s, e) && id !in s.callers && id in Apply(ttl, s, e).callers
    ensures CallerKept(Apply(ttl, s, e), Apply(ttl, s, e).callers[id])
  {
    match e {
      case Login(_, _, _) => NewIssueKept(ttl, s, e);
      case Redeem(token, receiver) => ReceiverKept(ttl, s, token, id);
      case StartRevoke(_, _) => ScanStepKept(ttl, s, e, id);
      case _ =>
    }
  }

  /** The record of a caller whose step it was. */
  lemma ActorKeptAfter(ttl: int, s: State, e: Step, id: nat)
    requires ttl > 0 && Inv(s) && Enabled(s, e) && Actor(e) == Some(id) && id in Apply(ttl, s, e).callers
    ensures CallerKept(Apply(ttl, s, e), Apply(ttl, s, e).callers[id])
  {
    match e {
      case Reissue(_, _) => NewIssueKept(ttl, s, e);
      case WriteToken(_) =>
        assert ActorKept(s, e);
        IssuingKept(ttl, s, e, s.callers[id]);
      case RevokeKey(_, key) =>
        assert CallerKept(s, s.callers[id]);
        RevokeKeyActorKept(ttl, s, id, key);
      case FinishRevoke(_) =>
      case Leave(_) =>
      case _ => ScanStepKept(ttl, s, e, id);
    }
  }

  /** When a token is answered OK, every other token of its lineage has been, and it has no successor. */
  lemma FirstAnswerKept(s: State, s': State, token: string)
    requires LineageKept(s.issued, s.answered) && token in s.issued && token !in s.answered
    requires s'.issued == s.issued && s'.answered == s.answered + [token]
    ensures CallerKept(s', Redeemed(s.issued[token].owner, token))
  {
    forall d | d in s.issued
      ensures s.issued[d].parent != Some(token)
      ensures s.issued[d].root == s.issued[token].root ==> d in s'.answered
    {
      assert ParentKept(s.issued, s.answered, d);
      if d != token {
        assert BranchKept(s.issued, s.answered, d, token);
      }
    }
  }

  lemma ScannedKeyIsOwn(s: State, user: Uuid, key: string)
    requires (forall u, t :: IndexKept(s, u, t)) && key in IndexKeys(s.redis, user)
    ensures OwnIndexKey(s.issued, user, key)
  {
    var t := TrimPrefix(key, UserRefreshKeyPrefix(user));
    PrefixSelectsUser(user, user, t, key);
    assert IndexKept(s, user, t);
  }

  lemma FreshScanKept(s: State, user: Uuid, cause: Option<string>)
    requires Inv(s) && (cause.Some? ==> WasRedeemed(s, user, cause.value))
    ensures CallerKept(s, FreshScan(s, user, cause))
  {
    forall k | k in IndexKeys(s.redis, user) ensures OwnIndexKey(s.issued, user, k) {
      ScannedKeyIsOwn(s, user, k);
    }
    forall t | OldAndLive(s, user, s.writes, t) ensures UserRefreshKey(user, t) in IndexKeys(s.redis, user) {
      assert TokenKept(s, t);
      PrefixSelectsUser(user, user, t, UserRefreshKey(user, t));
    }
  }

  lemma ScanReplyKept(s: State, c: Caller, keys: set<string>)
    requires CallerKept(s, c) && c.Revoking? && c.batch == {} && keys <= IndexKeys(s.redis, c.user)
    requires forall u, t :: IndexKept(s, u, t)
    ensures CallerKept(s, c.(must := c.must - keys, batch := keys))
  {
    forall k | k in (c.must - keys) + keys ensures OwnIndexKey(s.issued, c.user, k) {
      if k in keys {
        ScannedKeyIsOwn(s, c.user, k);
      } else {
        assert k in c.must + c.batch;
      }
    }
  }

  lemma LapseKept(s: State, c: Caller, key: string)
    requires CallerKept(s, c) && c.Revoking? && key in c.must && Peek(s.redis, key).None?
    requires forall t :: TokenKept(s, t)
    ensures CallerKept(s, c.(must := c.must - {key}))
  {
    forall t | OldAndLive(s, c.user, c.since, t) ensures UserRefreshKey(c.user, t) in (c.must - {key}) + c.batch {
      assert TokenKept(s, t);
    }
    forall k | k in (c.must - {key}) + c.batch ensures OwnIndexKey(s.issued, c.user, k) {
      assert k in c.must + c.batch;
    }
  }

  lemma RevokeKeyActorKept(ttl: int, s: State, id: nat, key: string)
    requires Enabled(s, RevokeKey(id, key)) && CallerKept(s, s.callers[id])
    ensures var s' := Apply(ttl, s, RevokeKey(id, key)); CallerKept(s', s'.callers[id])
  {
    var c := s.callers[id];
    var token := BatchKey(s, id, key);
    var s' := Apply(ttl, s, RevokeKey(id, key));
    var c' := s'.callers[id];
    forall t | OldAndLive(s', c.user, c.since, t) ensures UserRefreshKey(c.user, t) in c'.must + c'.batch {
      RevokeEffect(s.redis, c.user, token, t, c.user);
      KeysApart(t, token, c.user, c.user);
      assert OldAndLive(s, c.user, c.since, t);
    }
    forall k | k in c'.must + c'.batch ensures OwnIndexKey(s.issued, c.user, k) {
      assert k in c.must + c.batch;
    }
  }

  /** The record of a caller whose step it was not. */
  lemma BystanderKept(ttl: int, s: State, e: Step, id: nat)
    requires ttl > 0 && Inv(s) && Enabled(s, e) && id in s.callers && Actor(e) != Some(id)
    ensures CallerKept(Apply(ttl, s, e), s.callers[id])
  {
    var c := s.callers[id];
    assert CallerKept(s, c);
    match c {
      case Issuing(_, t) =>
        assert e.Redeem? ==> e.token != t;
        IssuingKept(ttl, s, e, c);
      case Redeemed(_, t) =>
        assert RootKept(s.issued, t);
        assert ActorKept(s, e);
        assert e.Reissue? ==> CallersApart(s, s.callers[e.id], c);
        RedeemedKept(ttl, s, e, c);
      case Caught(_, _) => CaughtKept(ttl, s, e, c);
      case Revoking(_, _, _, _, _) => RevokingKept(ttl, s, e, c);
    }
  }

  lemma OtherRecordsStay(ttl: int, s: State, e: Step, id: nat)
    requires Enabled(s, e) && id in s.callers && Actor(e) != Some(id)
    ensures id in Apply(ttl, s, e).callers && Apply(ttl, s, e).callers[id] == s.callers[id]
  {
  }

  lemma StepCallers(ttl: int, s: State, e: Step, id: nat)
    requires ttl > 0 && Inv(s) && Enabled(s, e) && id in Apply(ttl, s, e).callers
    ensures CallerKept(Apply(ttl, s, e), Apply(ttl, s, e).callers[id])
  {
    if id !in s.callers {
      NewcomerKept(ttl, s, e, id);
    } else if Actor(e) == Some(id) {
      ActorKeptAfter(ttl, s, e, id);
    } else {
      OtherRecordsStay(ttl, s, e, id);
      BystanderKept(ttl, s, e, id);
    }
  }

  lemma StepApart(ttl: int, s: State, e: Step, id: nat, id': nat)
    requires ttl > 0 && Inv(s) && Enabled(s, e) && id != id'
    requires id in Apply(ttl, s, e).callers && id' in Apply(ttl, s, e).callers
    ensures CallersApart(Apply(ttl, s, e), Apply(ttl, s, e).callers[id], Apply(ttl, s, e).callers[id'])
  {
    var s' := Apply(ttl, s, e);
    if id in s.callers && id' in s.callers && !e.Reissue? {
      assert CallersApart(s, s.callers[id], s.callers[id']);
      KeptApart(ttl, s, e, id, id');
    } else {
      NewcomerApart(ttl, s, e, id, id');
    }
  }

  /** Outside a reissue, a record that stays is the same or that of a scan. */
  lemma RecordStays(ttl: int, s: State, e: Step, id: nat)
    requires Enabled(s, e) && !e.Reissue? && id in s.callers && id in Apply(ttl, s, e).callers
    ensures Apply(ttl, s, e).callers[id] == s.callers[id] || Apply(ttl, s, e).callers[id].Revoking?
  {
  }

  lemma StayApart(s: State, s': State, c: Caller, c': Caller)
    requires CallersApart(s, c, c')
    requires c.Redeemed? && c.token in s'.issued ==> c.token in s.issued && s'.issued[c.token] == s.issued[c.token]
    requires c'.Redeemed? && c'.token in s'.issued ==> c'.token in s.issued && s'.issued[c'.token] == s.issued[c'.token]
    ensures CallersApart(s', c, c')
  {
  }

  lemma KeptApart(ttl: int, s: State, e: Step, id: nat, id': nat)
    requires Enabled(s, e) && id in s.callers && id' in s.callers && !e.Reissue?
    requires CallersApart(s, s.callers[id], s.callers[id'])
    requires CallerKept(s, s.callers[id]) && CallerKept(s, s.callers[id'])
    requires id in Apply(ttl, s, e).callers && id' in Apply(ttl, s, e).callers
    ensures CallersApart(Apply(ttl, s, e), Apply(ttl, s, e).callers[id], Apply(ttl, s, e).callers[id'])
  {
    var c, c' := s.callers[id], s.callers[id'];
    RecordStays(ttl, s, e, id);
    RecordStays(ttl, s, e, id');
    if c.Redeemed? { StepGrows(ttl, s, e, c.token); }
    if c'.Redeemed? { StepGrows(ttl, s, e, c'.token); }
    StayApart(s, Apply(ttl, s, e), c, c');
  }

  lemma NewcomerApart(ttl: int, s: State, e: Step, id: nat, id': nat)
    requires ttl > 0 && Inv(s) && Enabled(s, e) && id != id' && (e.Reissue? || id !in s.callers || id' !in s.callers)
    requires id in Apply(ttl, s, e).callers && id' in Apply(ttl, s, e).callers
    ensures CallersApart(Apply(ttl, s, e), Apply(ttl, s, e).callers[id], Apply(ttl, s, e).callers[id'])
  {
    assert id in s.callers ==> CallerKept(s, s.callers[id]);
    assert id' in s.callers ==> CallerKept(s, s.callers[id']);
    assert id in s.callers && id' in s.callers ==> CallersApart(s, s.callers[id], s.callers[id']);
    if e.Redeem? && RedeemReply(s.redis, e.token).OK? {
      RedeemOKIsFirst(s, e.token);
    }
    ChangedApart(ttl, s, e, id, id');
  }

  lemma ChangedApart(ttl: int, s: State, e: Step, id: nat, id': nat)
    requires Enabled(s, e) && id != id' && (e.Reissue? || id !in s.callers || id' !in s.callers)
    requires id in Apply(ttl, s, e).callers && id' in Apply(ttl, s, e).callers
    requires id in s.callers ==> CallerKept(s, s.callers[id])
    requires id' in s.callers ==> CallerKept(s, s.callers[id'])
    requires id in s.callers && id' in s.callers ==> CallersApart(s, s.callers[id], s.callers[id'])
    requires e.Redeem? && RedeemReply(s.redis, e.token).OK? ==> e.token in s.issued && e.token !in s.answered
    ensures CallersApart(Apply(ttl, s, e), Apply(ttl, s, e).callers[id], Apply(ttl, s, e).callers[id'])
  {
    match e {
      case Login(_, _, _) =>
      case Redeem(_, _) =>
      case Reissue(_, _) =>
      case StartRevoke(_, _) =>
      case _ =>
    }
  }

  lemma StepWrites(ttl: int, s: State, e: Step)
    requires Enabled(s, e) && WritesKept(s) && ActorKept(s, e)
    ensures WritesKept(Apply(ttl, s, e))
  {
  }

  lemma StepKept(ttl: int, s: State, e: Step)
    requires ttl > 0 && Inv(s) && Enabled(s, e)
    ensures Inv(Apply(ttl, s, e))
  {
    var s' := Apply(ttl, s, e);
    assert LineageKept(s'.issued, s'.answered) && Distinct(s'.answered) by { StepLineage(ttl, s, e); }
    assert WritesKept(s') by {
      assert ActorKept(s, e);
      StepWrites(ttl, s, e);
    }
    forall t ensures TokenKept(s', t) { StepTokens(ttl, s, e, t); }
    forall u, t ensures IndexKept(s', u, t) {
      assert ActorKept(s, e) && IndexKept(s, u, t);
      StepIndex(ttl, s, e, u, t);
    }
    forall id | id in s'.callers ensures CallerKept(s', s'.callers[id]) { StepCallers(ttl, s, e, id); }
    forall id, id' | id in s'.callers && id' in s'.callers && id != id'
      ensures CallersApart(s', s'.callers[id], s'.callers[id'])
    {
      StepApart(ttl, s, e, id, id');
    }
  }

  lemma {:induction false} RunKept(ttl: int, s: State, es: seq<Step>)
    requires ttl > 0 && Inv(s) && LegalRun(ttl, s, es)
    ensures Inv(Run(ttl, s, es))
    decreases |es|
  {
    if es != [] {
      StepKept(ttl, s, es[0]);
      RunKept(ttl, Apply(ttl, s, es[0]), es[1..]);
    }
  }
}
