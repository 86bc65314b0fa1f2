/** The Redis keys of internal/infrastructure/security/jwt_service.go, and the per-token store they amount to. */
module RedisStore {
  import opened Common
  import opened Uuids

  /** A string value that is visible until `deadline`. */
  datatype Entry = Entry(value: string, deadline: int)

  /** The database: its keys, expired ones possibly still among them, and its clock in milliseconds. */
  datatype Redis = Redis(kv: map<string, Entry>, now: int)

  /** `reuseTombstoneTTL`: five minutes. */
  const TOMBSTONE_TTL: int := 5 * 60 * 1000

  // ---- commands

  function Peek(r: Redis, key: string): Option<Entry> {
    if key in r.kv && r.now < r.kv[key].deadline then Some(r.kv[key]) else None
  }

  function Get(r: Redis, key: string): Option<string> {
    match Peek(r, key)
    case Some(e) => Some(e.value)
    case None => None
  }

  function Set(r: Redis, key: string, value: string, ttl: int): Redis {
    r.(kv := r.kv[key := Entry(value, r.now + ttl)])
  }

  function Del(r: Redis, key: string): Redis { r.(kv := r.kv - {key}) }

  function Tick(r: Redis, elapsed: nat): Redis { r.(now := r.now + elapsed) }

  // ---- keys

  function RefreshKey(token: string): string { "refresh:" + token }

  function UsedRefreshKey(token: string): string { "used-refresh:" + token }

  function UserRefreshKeyPrefix(user: Uuid): string { "user-refresh:" + Text(user) + ":" }

  function UserRefreshKey(user: Uuid, token: string): string { UserRefreshKeyPrefix(user) + token }

  predicate HasPrefix(s: string, prefix: string) { prefix <= s }

  /** `strings.TrimPrefix`. */
  function TrimPrefix(s: string, prefix: string): string { if HasPrefix(s, prefix) then s[|prefix|..] else s }

  // ---- the three transactions

  /** The MULTI of `GeneratePair`: the token and its index entry, with one expiry. */
  function IssueTx(r: Redis, user: Uuid, token: string, ttl: int): Redis {
    Set(Set(r, RefreshKey(token), Text(user), ttl), UserRefreshKey(user, token), token, ttl)
  }

  datatype Reply = Reused(user: string) | OK(user: string) | Invalid

  /** `redeemScript`, atomic. */
  function RedeemReply(r: Redis, token: string): Reply {
    match Get(r, UsedRefreshKey(token))
    case Some(user) => Reused(user)
    case None =>
      match Get(r, RefreshKey(token))
      case Some(user) => OK(user)
      case None => Invalid
  }

  function RedeemTx(r: Redis, token: string): Redis {
    match RedeemReply(r, token)
    case OK(user) => Set(Del(r, RefreshKey(token)), UsedRefreshKey(token), user, TOMBSTONE_TTL)
    case _ => r
  }

  /** The MULTI of `RevokeAllRefreshTokens` for one scanned index key. */
  function RevokeTx(r: Redis, user: Uuid, indexKey: string): Redis {
    Del(Del(r, RefreshKey(TrimPrefix(indexKey, UserRefreshKeyPrefix(user)))), indexKey)
  }

  // ---- the three key families

  lemma UserKeyParts(u: Uuid, t: string)
    ensures var k := UserRefreshKey(u, t);
      |k| == 50 + |t| && k[0] == 'u' && k[3] == 'r' && k[13..49] == Text(u) && k[50..] == t
  {
    var k := UserRefreshKey(u, t);
    assert k == "user-refresh:" + (Text(u) + (":" + t));
    assert k[13..] == Text(u) + (":" + t);
    assert k[13..49] == k[13..][..36] == Text(u);
    assert k[50..] == (":" + t)[1..] == t;
  }

  /** Keys of different families never collide, whatever the token texts, and each family is injective. */
  lemma KeysApart(t: string, t': string, u: Uuid, u': Uuid)
    ensures RefreshKey(t) != UsedRefreshKey(t')
    ensures RefreshKey(t) != UserRefreshKey(u, t')
    ensures UsedRefreshKey(t) != UserRefreshKey(u, t')
    ensures RefreshKey(t) == RefreshKey(t') <==> t == t'
    ensures UsedRefreshKey(t) == UsedRefreshKey(t') <==> t == t'
    ensures UserRefreshKey(u, t) == UserRefreshKey(u', t') <==> u == u' && t == t'
  {
    UserKeyParts(u, t);
    UserKeyParts(u, t');
    UserKeyParts(u', t');
    assert RefreshKey(t)[0] == 'r' && UsedRefreshKey(t')[0] == 'u' && UsedRefreshKey(t)[3] == 'd';
    assert RefreshKey(t)[8..] == t && RefreshKey(t')[8..] == t';
    assert UsedRefreshKey(t)[13..] == t && UsedRefreshKey(t')[13..] == t';
    ParseRoundTrip(u);
    ParseRoundTrip(u');
  }

  /** The keys under a user's prefix are that user's index keys and no others: `TrimPrefix` recovers the token. */
  lemma PrefixSelectsUser(u: Uuid, u': Uuid, t: string, key: string)
    ensures HasPrefix(key, UserRefreshKeyPrefix(u))
      <==> key == UserRefreshKey(u, TrimPrefix(key, UserRefreshKeyPrefix(u)))
    ensures HasPrefix(UserRefreshKey(u', t), UserRefreshKeyPrefix(u)) <==> u == u'
    ensures TrimPrefix(UserRefreshKey(u, t), UserRefreshKeyPrefix(u)) == t
    ensures !HasPrefix(RefreshKey(t), UserRefreshKeyPrefix(u)) && !HasPrefix(UsedRefreshKey(t), UserRefreshKeyPrefix(u))
  {
    var p := UserRefreshKeyPrefix(u);
    if HasPrefix(key, p) {
      assert key == p + key[|p|..];
    }
    var key' := UserRefreshKey(u', t);
    if HasPrefix(key', p) {
      assert key' == UserRefreshKey(u, key'[|p|..]);
      KeysApart(t, key'[|p|..], u', u);
    }
    assert p[0] == 'u' && p[3] == 'r' && RefreshKey(t)[0] == 'r' && UsedRefreshKey(t)[3] == 'd';
  }

  /** Redis' glob match, for patterns without brackets and backslashes. */
  predicate Glob(pattern: string, s: string)
    decreases |pattern|, |s|
  {
    if pattern == "" then s == ""
    else if pattern[0] == '*' then Glob(pattern[1..], s) || (s != "" && Glob(pattern, s[1..]))
    else s != "" && (pattern[0] == '?' || pattern[0] == s[0]) && Glob(pattern[1..], s[1..])
  }

  lemma {:induction false} StarMatchesAll(s: string)
    ensures Glob("*", s)
  {
    assert "*"[1..] == "";
    if s != "" { StarMatchesAll(s[1..]); }
  }

  lemma {:induction false} LiteralThenStar(prefix: string, s: string)
    requires forall c :: c in prefix ==> c != '*' && c != '?'
    ensures Glob(prefix + "*", s) <==> HasPrefix(s, prefix)
  {
    if prefix == "" {
      assert prefix + "*" == "*";
      StarMatchesAll(s);
    } else {
      var pattern := prefix + "*";
      assert prefix[0] in prefix;
      assert pattern[0] == prefix[0] && pattern[1..] == prefix[1..] + "*";
      if s == "" {
        assert !Glob(pattern, s) && !HasPrefix(s, prefix);
      } else {
        forall c | c in prefix[1..] ensures c != '*' && c != '?' { assert c in prefix; }
        LiteralThenStar(prefix[1..], s[1..]);
        assert Glob(pattern, s) <==> prefix[0] == s[0] && Glob(pattern[1..], s[1..]);
        assert prefix == [prefix[0]] + prefix[1..] && s == [s[0]] + s[1..];
      }
    }
  }

  /** The pattern `RevokeAllRefreshTokens` scans with matches exactly the user's index keys. */
  lemma ScanPatternIsPrefix(u: Uuid, key: string)
    ensures Glob(UserRefreshKeyPrefix(u) + "*", key) <==> HasPrefix(key, UserRefreshKeyPrefix(u))
  {
    TextChars(u);
    LiteralThenStar(UserRefreshKeyPrefix(u), key);
  }

  /** The user's index keys a scan can see. */
  function IndexKeys(r: Redis, user: Uuid): set<string> {
    set k | k in r.kv && Peek(r, k).Some? && HasPrefix(k, UserRefreshKeyPrefix(user))
  }

  // ---- the abstract store

  /** What the service remembers about one token text. */
  datatype TokenState = Absent | Live(user: string, until: int) | Used(user: string, until: int)

  function Abstract(r: Redis, token: string): TokenState {
    match Peek(r, UsedRefreshKey(token))
    case Some(e) => Used(e.value, e.deadline)
    case None =>
      match Peek(r, RefreshKey(token))
      case Some(e) => Live(e.value, e.deadline)
      case None => Absent
  }

  function LiveEntry(r: Redis, token: string): Option<Entry> { Peek(r, RefreshKey(token)) }

  function UsedEntry(r: Redis, token: string): Option<Entry> { Peek(r, UsedRefreshKey(token)) }

  function IndexEntry(r: Redis, user: Uuid, token: string): Option<Entry> { Peek(r, UserRefreshKey(user, token)) }

  lemma IssueTokenEffect(r: Redis, user: Uuid, token: string, ttl: int, t: string)
    requires ttl > 0
    ensures var r' := IssueTx(r, user, token, ttl);
      && LiveEntry(r', t) == (if t == token then Some(Entry(Text(user), r.now + ttl)) else LiveEntry(r, t))
      && UsedEntry(r', t) == UsedEntry(r, t)
  {
    KeysApart(t, token, user, user);
    KeysApart(token, t, user, user);
  }

  lemma IssueIndexEffect(r: Redis, user: Uuid, token: string, ttl: int, t: string, u: Uuid)
    requires ttl > 0
    ensures IndexEntry(IssueTx(r, user, token, ttl), u, t)
      == (if t == token && u == user then Some(Entry(token, r.now + ttl)) else IndexEntry(r, u, t))
  {
    KeysApart(t, token, u, user);
    KeysApart(token, t, u, user);
  }

  /** Issuing touches one token and one index entry. */
  lemma IssueEffect(r: Redis, user: Uuid, token: string, ttl: int, t: string, u: Uuid)
    requires ttl > 0
    ensures var r' := IssueTx(r, user, token, ttl);
      && LiveEntry(r', t) == (if t == token then Some(Entry(Text(user), r.now + ttl)) else LiveEntry(r, t))
      && UsedEntry(r', t) == UsedEntry(r, t)
      && IndexEntry(r', u, t)
        == (if t == token && u == user then Some(Entry(token, r.now + ttl)) else IndexEntry(r, u, t))
      && r'.now == r.now
  {
    IssueTokenEffect(r, user, token, ttl, t);
    IssueIndexEffect(r, user, token, ttl, t, u);
  }

  /** Redeeming consumes the token exactly when the answer is OK, and then leaves a tombstone for five minutes. */
  lemma RedeemEffect(r: Redis, token: string, t: string, u: Uuid)
    ensures var r', reply := RedeemTx(r, token), RedeemReply(r, token);
      && LiveEntry(r', t) == (if t == token && reply.OK? then None else LiveEntry(r, t))
      && UsedEntry(r', t)
        == (if t == token && reply.OK? then Some(Entry(reply.user, r.now + 300_000)) else UsedEntry(r, t))
      && IndexEntry(r', u, t) == IndexEntry(r, u, t)
      && r'.now == r.now
    ensures match RedeemReply(r, token)
      case OK(user) => UsedEntry(r, token) == None && LiveEntry(r, token).Some?
        && LiveEntry(r, token).value.value == user
      case Reused(user) => UsedEntry(r, token).Some? && UsedEntry(r, token).value.value == user
      case Invalid => UsedEntry(r, token) == None && LiveEntry(r, token) == None
  {
    KeysApart(t, token, u, u);
    KeysApart(token, t, u, u);
  }

  /** Revoking through an index key removes that token and that entry. */
  lemma RevokeEffect(r: Redis, user: Uuid, token: string, t: string, u: Uuid)
    ensures var r' := RevokeTx(r, user, UserRefreshKey(user, token));
      && LiveEntry(r', t) == (if t == token then None else LiveEntry(r, t))
      && UsedEntry(r', t) == UsedEntry(r, t)
      && IndexEntry(r', u, t) == (if t == token && u == user then None else IndexEntry(r, u, t))
      && r'.now == r.now
  {
    PrefixSelectsUser(user, user, token, UserRefreshKey(user, token));
    KeysApart(t, token, user, u);
    KeysApart(token, t, u, user);
    KeysApart(t, token, u, user);
  }

  lemma DelLiveEffect(r: Redis, token: string, t: string, u: Uuid)
    ensures var r' := Del(r, RefreshKey(token));
      && LiveEntry(r', t) == (if t == token then None else LiveEntry(r, t))
      && UsedEntry(r', t) == UsedEntry(r, t) && IndexEntry(r', u, t) == IndexEntry(r, u, t) && r'.now == r.now
  {
    KeysApart(t, token, u, u);
    KeysApart(token, t, u, u);
  }

  lemma DelIndexEffect(r: Redis, user: Uuid, token: string, t: string, u: Uuid)
    ensures var r' := Del(r, UserRefreshKey(user, token));
      && LiveEntry(r', t) == LiveEntry(r, t) && UsedEntry(r', t) == UsedEntry(r, t) && r'.now == r.now
      && IndexEntry(r', u, t) == (if t == token && u == user then None else IndexEntry(r, u, t))
  {
    KeysApart(t, token, user, u);
    KeysApart(t, token, u, user);
  }

  /** Time only takes away, and each entry goes at its own deadline. */
  lemma TickEffect(r: Redis, elapsed: nat, t: string, u: Uuid)
    ensures var r' := Tick(r, elapsed);
      && LiveEntry(r', t)
        == (if LiveEntry(r, t).Some? && r'.now < LiveEntry(r, t).value.deadline then LiveEntry(r, t) else None)
      && UsedEntry(r', t)
        == (if UsedEntry(r, t).Some? && r'.now < UsedEntry(r, t).value.deadline then UsedEntry(r, t) else None)
      && IndexEntry(r', u, t)
        == (if IndexEntry(r, u, t).Some? && r'.now < IndexEntry(r, u, t).value.deadline then IndexEntry(r, u, t)
            else None)
  {
  }

  /**
   * How long a reuse is detected: a token redeemed now is answered REUSED, with its user, when it is presented again
   * within five minutes (300,000 ms), and is unknown from then on.
   */
  lemma ReuseIsDetectedForFiveMinutes(r: Redis, token: string, d: nat)
    requires RedeemReply(r, token).OK?
    ensures RedeemReply(Tick(RedeemTx(r, token), d), token)
      == if d < 300_000 then Reused(RedeemReply(r, token).user) else Invalid
  {
    var anyone: Uuid := seq(16, _ => 0);
    RedeemEffect(r, token, token, anyone);
    TickEffect(RedeemTx(r, token), d, token, anyone);
    ReplyByEntries(Tick(RedeemTx(r, token), d), token);
  }

  /** How long a token lasts: `ttl` milliseconds from its issue, and its index entry as long. */
  lemma TokenLastsItsTTL(r: Redis, user: Uuid, token: string, ttl: int, d: nat)
    requires ttl > 0 && UsedEntry(r, token) == None
    ensures var r' := Tick(IssueTx(r, user, token, ttl), d);
      && RedeemReply(r', token) == (if d < ttl then OK(Text(user)) else Invalid)
      && (IndexEntry(r', user, token).Some? <==> d < ttl)
  {
    IssueEffect(r, user, token, ttl, token, user);
    TickEffect(IssueTx(r, user, token, ttl), d, token, user);
    ReplyByEntries(Tick(IssueTx(r, user, token, ttl), d), token);
  }

  /** The script answers by the two keys of the token. */
  lemma ReplyByEntries(r: Redis, token: string)
    ensures RedeemReply(r, token)
      == if UsedEntry(r, token).Some? then Reused(UsedEntry(r, token).value.value)
         else if LiveEntry(r, token).Some? then OK(LiveEntry(r, token).value.value) else Invalid
  {
  }

  /** The keys as they are written. */
  lemma KeySpelling(u: Uuid)
    ensures RefreshKey("t") == "refresh:t" && UsedRefreshKey("t") == "used-refresh:t"
    ensures UserRefreshKey(u, "t") == "user-refresh:" + Text(u) + ":t"
  {
  }

  // ---- the per-token machine the keys refine

  /** What one command does to one token, as a machine that knows nothing of keys. */
  datatype Command =
    | Issue(user: Uuid, token: string, ttl: int) | Redeem(token: string) | Revoke(user: Uuid, token: string)
    | DropLive(token: string) | DropIndex(user: Uuid, token: string) | Pass(elapsed: nat)

  function Execute(r: Redis, c: Command): Redis {
    match c
    case Issue(user, token, ttl) => IssueTx(r, user, token, ttl)
    case Redeem(token) => RedeemTx(r, token)
    case Revoke(user, token) => RevokeTx(r, user, UserRefreshKey(user, token))
    case DropLive(token) => Del(r, RefreshKey(token))
    case DropIndex(user, token) => Del(r, UserRefreshKey(user, token))
    case Pass(elapsed) => Tick(r, elapsed)
  }

  function Expire(s: TokenState, now: int): TokenState {
    if s.Absent? || now < s.until then s else Absent
  }

  function AbstractStep(s: TokenState, now: int, t: string, c: Command): TokenState {
    match c
    case Issue(user, token, ttl) => if t == token then Live(Text(user), now + ttl) else s
    case Redeem(token) => if t == token && s.Live? then Used(s.user, now + TOMBSTONE_TTL) else s
    case Revoke(_, token) => if t == token && s.Live? then Absent else s
    case DropLive(token) => if t == token && s.Live? then Absent else s
    case DropIndex(_, _) => s
    case Pass(elapsed) => Expire(s, now + elapsed)
  }

  /** No token is both live and tombstoned. */
  ghost predicate Exclusive(r: Redis) { forall t :: !(LiveEntry(r, t).Some? && UsedEntry(r, t).Some?) }

  lemma OneTokenRefines(r: Redis, c: Command, t: string)
    requires !(LiveEntry(r, t).Some? && UsedEntry(r, t).Some?)
    requires c.Issue? ==> c.ttl > 0 && UsedEntry(r, c.token) == None
    ensures Abstract(Execute(r, c), t) == AbstractStep(Abstract(r, t), r.now, t, c)
    ensures !(LiveEntry(Execute(r, c), t).Some? && UsedEntry(Execute(r, c), t).Some?)
  {
    var anyone: Uuid := seq(16, _ => 0);
    match c {
      case Issue(user, token, ttl) => IssueTokenEffect(r, user, token, ttl, t);
      case Redeem(token) => RedeemEffect(r, token, t, anyone);
      case Revoke(user, token) => RevokeEffect(r, user, token, t, anyone);
      case DropLive(token) => DelLiveEffect(r, token, t, anyone);
      case DropIndex(user, token) => DelIndexEffect(r, user, token, t, anyone);
      case Pass(elapsed) => TickEffect(r, elapsed, t, anyone);
    }
  }

  /**
   * The string-keyed store refines one machine per token, provided no tombstoned token is issued again; and it then
   * never has a token both live and tombstoned.
   */
  lemma StoreRefinesTokenMachine(r: Redis, c: Command)
    requires Exclusive(r)
    requires c.Issue? ==> c.ttl > 0 && UsedEntry(r, c.token) == None
    ensures Exclusive(Execute(r, c))
    ensures forall t :: Abstract(Execute(r, c), t) == AbstractStep(Abstract(r, t), r.now, t, c)
  {
    forall t
      ensures Abstract(Execute(r, c), t) == AbstractStep(Abstract(r, t), r.now, t, c)
      ensures !(LiveEntry(Execute(r, c), t).Some? && UsedEntry(Execute(r, c), t).Some?)
    {
      OneTokenRefines(r, c, t);
    }
  }

  /**
   * Why a token must not be presented while its issue can still be sent again: if the issuing transaction is executed
   * once more after the redemption, the token is answered OK a second time when the tombstone has gone.
   */
  lemma LateIssueRevivesToken(r: Redis, user: Uuid, token: string, ttl: int)
    requires ttl > 300_000 && UsedEntry(r, token) == None
    ensures var r1 := IssueTx(r, user, token, ttl);
      var r2 := RedeemTx(r1, token);
      var r3 := Tick(IssueTx(r2, user, token, ttl), 300_000);
      RedeemReply(r1, token) == OK(Text(user)) && RedeemReply(r3, token) == OK(Text(user))
  {
    var r1 := IssueTx(r, user, token, ttl);
    var r2 := RedeemTx(r1, token);
    IssueEffect(r, user, token, ttl, token, user);
    RedeemEffect(r1, token, token, user);
    IssueEffect(r2, user, token, ttl, token, user);
    TickEffect(IssueTx(r2, user, token, ttl), 300_000, token, user);
  }
}
