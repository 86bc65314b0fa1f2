/**
 * The keyed token-bucket limiter of internal/interface/http/middleware/rate_limit.go. Times are seconds, tokens are
 * reals.
 */
module RateLimits {
  /** `r` requests a second with burst `b`; idle entries are swept after `ttl`. */
  datatype Config = Config(r: real, b: int, ttl: real)

  /** `entryTTL`. */
  const ENTRY_TTL: real := 600.0

  /** The token bucket of golang.org/x/time/rate: tokens held at time `last`. */
  datatype Bucket = Bucket(tokens: real, last: real)

  /** A rate that is not positive brings nothing. */
  function Rate(c: Config): real { if c.r <= 0.0 then 0.0 else c.r }

  /** The tokens that arrive in a time `t`. */
  function Refill(c: Config, t: real): real { Rate(c) * t }

  function NewBucket(c: Config): Bucket { Bucket(c.b as real, 0.0) }

  function Level(c: Config, k: Bucket, now: real): real {
    var elapsed := if now < k.last then 0.0 else now - k.last;
    var tokens := k.tokens + Refill(c, elapsed);
    if tokens > c.b as real then c.b as real else tokens
  }

  predicate Grants(c: Config, k: Bucket, now: real) { 1 <= c.b && Level(c, k, now) - 1.0 >= 0.0 }

  function Take(c: Config, k: Bucket, now: real): Bucket {
    if Grants(c, k, now) then Bucket(Level(c, k, now) - 1.0, now) else k
  }

  /** A map entry: the limiter (an object of some kind) and the time of the latest lookup. */
  datatype Entry<+L> = Entry(limiter: L, lastSeen: real)

  /** The map after a lookup of `key` at `now`; `created` is the limiter used if the key is absent. */
  function Touched<L>(m: map<string, Entry<L>>, key: string, created: L, now: real): map<string, Entry<L>> {
    m[key := Entry(if key in m then m[key].limiter else created, now)]
  }

  /** The map after a sweep: entries last seen strictly before the cutoff are gone. */
  function Swept<L>(m: map<string, Entry<L>>, cutoff: real): map<string, Entry<L>> {
    map key | key in m && !(m[key].lastSeen < cutoff) :: m[key]
  }

  // ---- concurrent requests: each looks its limiter up, and asks it a little later

  /** A request that has looked up its limiter and not yet asked it. */
  datatype Pending = Pending(key: string, limiter: nat, since: real)

  /** `buckets` is the heap of limiter objects, evicted ones included; `answers` lists the decisions made so far. */
  datatype World = World(now: real, entries: map<string, Entry<nat>>, buckets: seq<Bucket>,
                         pending: map<nat, Pending>, answers: seq<(string, bool)>)

  /** A sweep computes its cutoff from the clock at `started`, and gets the lock at `at`. */
  datatype Event = Lookup(call: nat, key: string, at: real) | Ask(call: nat, at: real) | Sweep(started: real, at: real)

  const START := World(0.0, map[], [], map[], [])

  predicate WellFormed(w: World) {
    && (forall k :: k in w.entries ==> w.entries[k].limiter < |w.buckets|)
    && (forall i :: i in w.pending ==> w.pending[i].limiter < |w.buckets|)
  }

  /** Time does not run backwards, and a request asks at most `delay` after its lookup. */
  predicate Enabled(delay: real, w: World, e: Event) {
    && w.now <= e.at
    && (forall i :: i in w.pending ==> e.at <= w.pending[i].since + delay)
    && match e
       case Lookup(call, _, _) => call !in w.pending
       case Ask(call, _) => call in w.pending
       case Sweep(started, at) => started <= at
  }

  /** One event; with `evict` false the sweeps do nothing, so the map never forgets a key. */
  function Do(c: Config, evict: bool, w: World, e: Event): (w': World)
    requires WellFormed(w) && (e.Ask? ==> e.call in w.pending)
    ensures WellFormed(w')
  {
    match e
    case Lookup(call, key, at) =>
      var entries := Touched(w.entries, key, |w.buckets|, at);
      w.(now := at, entries := entries,
         buckets := if key in w.entries then w.buckets else w.buckets + [NewBucket(c)],
         pending := w.pending[call := Pending(key, entries[key].limiter, at)])
    case Ask(call, at) =>
      var p := w.pending[call];
      var k := w.buckets[p.limiter];
      w.(now := at, buckets := w.buckets[p.limiter := Take(c, k, at)], pending := w.pending - {call},
         answers := w.answers + [(p.key, Grants(c, k, at))])
    case Sweep(started, at) =>
      w.(now := at, entries := if evict then Swept(w.entries, started - c.ttl) else w.entries)
  }

  predicate LegalRun(c: Config, delay: real, evict: bool, w: World, es: seq<Event>)
    requires WellFormed(w)
    decreases |es|
  {
    es == [] || (Enabled(delay, w, es[0]) && LegalRun(c, delay, evict, Do(c, evict, w, es[0]), es[1..]))
  }

  function Run(c: Config, delay: real, evict: bool, w: World, es: seq<Event>): (w': World)
    requires WellFormed(w) && LegalRun(c, delay, evict, w, es)
    ensures WellFormed(w')
    decreases |es|
  {
    if es == [] then w else Run(c, delay, evict, Do(c, evict, w, es[0]), es[1..])
  }

  // ---- facts about one bucket

  /** Full from `now` on. */
  predicate Full(c: Config, k: Bucket, now: real) { k.last <= now && Level(c, k, now) == c.b as real }

  predicate Similar(c: Config, k: Bucket, k': Bucket, now: real) { k == k' || (Full(c, k, now) && Full(c, k', now)) }

  lemma RefillMonotone(c: Config, x: real, y: real)
    requires x <= y
    ensures Refill(c, x) <= Refill(c, y)
    ensures 0.0 <= x ==> 0.0 <= Refill(c, x)
    ensures 0.0 <= y ==> 0.0 <= Refill(c, y)
  {
    assert Rate(c) >= 0.0;
  }

  lemma RefillDifference(c: Config, x: real, y: real)
    ensures Refill(c, y - x) == Refill(c, y) - Refill(c, x)
  {
  }

  lemma LevelGrows(c: Config, k: Bucket, t: real, t': real)
    requires t <= t'
    ensures Level(c, k, t) <= Level(c, k, t')
    ensures Level(c, k, t') <= Level(c, k, t) + Refill(c, t' - t)
  {
    var e := if t < k.last then 0.0 else t - k.last;
    var e' := if t' < k.last then 0.0 else t' - k.last;
    RefillMonotone(c, e, e');
    RefillMonotone(c, e', e + (t' - t));
    RefillDifference(c, t' - t, e + (t' - t));
    RefillMonotone(c, 0.0, t' - t);
  }

  /**
   * What a bucket does, in figures: it grants exactly when the tokens it held, with those that came since at the
   * configured rate, make one; with a burst below one it never does. A clock reading before the latest grant adds
   * nothing.
   */
  lemma GrantsExactly(c: Config, k: Bucket, now: real)
    ensures c.b < 1 ==> !Grants(c, k, now)
    ensures c.b >= 1 && k.last <= now ==>
      (Grants(c, k, now) <==> k.tokens + (if c.r > 0.0 then c.r else 0.0) * (now - k.last) >= 1.0)
    ensures c.b >= 1 && now < k.last ==> (Grants(c, k, now) <==> k.tokens >= 1.0)
  {
  }

  /** A grant takes one of the tokens held at the time, which never exceed the burst; a refusal takes nothing. */
  lemma TakesOne(c: Config, k: Bucket, now: real)
    requires c.b >= 1
    ensures var held := k.tokens + (if c.r > 0.0 then c.r else 0.0) * (if now < k.last then 0.0 else now - k.last);
      Take(c, k, now)
        == if held >= 1.0 then Bucket((if held > c.b as real then c.b as real else held) - 1.0, now) else k
  {
  }

  /** An emptied bucket grants again exactly when the rate has brought one token. */
  lemma EmptyBucketGrants(c: Config, since: real, now: real)
    requires c.r >= 0.0 && c.b >= 1 && since <= now
    ensures Grants(c, Bucket(0.0, since), now) <==> c.r * (now - since) >= 1.0
  {
  }

  lemma StaysSimilar(c: Config, k: Bucket, k': Bucket, t: real, t': real)
    requires t <= t' && Similar(c, k, k', t)
    ensures Similar(c, k, k', t')
    ensures Grants(c, k, t') == Grants(c, k', t')
    ensures Similar(c, Take(c, k, t'), Take(c, k', t'), t')
  {
    LevelGrows(c, k, t, t');
    LevelGrows(c, k', t, t');
  }

  /** A bucket left alone for longer than `idle` is full, if the rate refills the burst in that time. */
  lemma IdleRefills(c: Config, k: Bucket, idle: real, now: real)
    requires 0.0 <= idle && Refill(c, idle) >= c.b as real && 0.0 <= k.tokens && now - k.last >= idle
    ensures Full(c, k, now)
  {
    RefillMonotone(c, idle, now - k.last);
  }

  // ---- the evicting map and the map that never evicts

  /** What each of the two worlds keeps by itself. */
  ghost predicate Sane(delay: real, w: World) {
    && WellFormed(w) && 0.0 <= w.now
    && (forall k, k' :: k in w.entries && k' in w.entries && k != k' ==> w.entries[k].limiter != w.entries[k'].limiter)
    && (forall i :: i in w.pending ==>
          var p := w.pending[i];
          p.key in w.entries && w.entries[p.key].limiter == p.limiter
          && p.since <= w.entries[p.key].lastSeen && w.now <= p.since + delay)
    && (forall k :: k in w.entries ==> w.entries[k].lastSeen <= w.now)
  }

  function Held(w: World, key: string): Bucket
    requires WellFormed(w) && key in w.entries
  {
    w.buckets[w.entries[key].limiter]
  }

  ghost predicate Aged(c: Config, delay: real, k: Bucket, lastSeen: real, now: real) {
    Full(c, k, now) || (0.0 <= k.tokens && k.last <= now && k.last <= lastSeen + delay)
  }

  /** `w` evicts, `n` never does: what their buckets for one key have in common at time `t`. */
  ghost predicate KeyMatches(c: Config, delay: real, w: World, n: World, k: string, t: real)
    requires WellFormed(w) && WellFormed(n)
  {
    && (k in w.entries ==>
          k in n.entries && w.entries[k].lastSeen == n.entries[k].lastSeen && Similar(c, Held(w, k), Held(n, k), t))
    && (k in n.entries ==>
          (k !in w.entries ==> Full(c, Held(n, k), t)) && Aged(c, delay, Held(n, k), n.entries[k].lastSeen, t))
  }

  ghost predicate SamePending(w: World, n: World) {
    && w.pending.Keys == n.pending.Keys
    && (forall i :: i in w.pending ==> w.pending[i].key == n.pending[i].key && w.pending[i].since == n.pending[i].since)
  }

  ghost predicate Matches(c: Config, delay: real, w: World, n: World) {
    && Sane(delay, w) && Sane(delay, n)
    && w.now == n.now && w.answers == n.answers && SamePending(w, n)
    && (forall k :: KeyMatches(c, delay, w, n, k, n.now))
  }

  lemma LookupSane(c: Config, delay: real, evict: bool, w: World, e: Event)
    requires 0.0 <= delay && Sane(delay, w) && e.Lookup? && Enabled(delay, w, e)
    ensures Sane(delay, Do(c, evict, w, e))
  {
  }

  lemma AskSane(c: Config, delay: real, evict: bool, w: World, e: Event)
    requires 0.0 <= delay && Sane(delay, w) && e.Ask? && Enabled(delay, w, e)
    ensures Sane(delay, Do(c, evict, w, e))
  {
  }

  lemma SweepSane(c: Config, delay: real, evict: bool, w: World, e: Event)
    requires 0.0 <= delay <= c.ttl && Sane(delay, w) && e.Sweep? && Enabled(delay, w, e)
    ensures Sane(delay, Do(c, evict, w, e))
  {
  }

  lemma StepSane(c: Config, delay: real, evict: bool, w: World, e: Event)
    requires 0.0 <= delay <= c.ttl && Sane(delay, w) && Enabled(delay, w, e)
    ensures Sane(delay, Do(c, evict, w, e))
  {
    match e {
      case Lookup(_, _, _) => LookupSane(c, delay, evict, w, e);
      case Ask(_, _) => AskSane(c, delay, evict, w, e);
      case Sweep(_, _) => SweepSane(c, delay, evict, w, e);
    }
  }

  lemma KeyTimePasses(c: Config, delay: real, w: World, n: World, k: string, t: real, t': real)
    requires WellFormed(w) && WellFormed(n) && t <= t' && KeyMatches(c, delay, w, n, k, t)
    ensures KeyMatches(c, delay, w, n, k, t')
  {
    if k in n.entries {
      LevelGrows(c, Held(n, k), t, t');
      if k in w.entries {
        StaysSimilar(c, Held(w, k), Held(n, k), t, t');
      }
    }
  }

  /** What a world holds for a key the event does not concern. */
  lemma OtherKey(c: Config, delay: real, evict: bool, w: World, e: Event, k: string)
    requires Sane(delay, w) && Enabled(delay, w, e) && !e.Sweep?
    requires e.Lookup? ==> k != e.key
    requires e.Ask? ==> k != w.pending[e.call].key
    ensures var w' := Do(c, evict, w, e);
      (k in w'.entries <==> k in w.entries)
        && (k in w.entries ==> w'.entries[k] == w.entries[k] && Held(w', k) == Held(w, k))
  {
  }

  lemma LookupMatches(c: Config, delay: real, w: World, n: World, e: Event, k: string)
    requires 0.0 <= delay && Matches(c, delay, w, n) && e.Lookup? && Enabled(delay, w, e) && Enabled(delay, n, e)
    ensures KeyMatches(c, delay, Do(c, true, w, e), Do(c, false, n, e), k, e.at)
  {
    KeyTimePasses(c, delay, w, n, k, n.now, e.at);
    if k == e.key {
      assert Full(c, NewBucket(c), e.at);
    } else {
      OtherKey(c, delay, true, w, e, k);
      OtherKey(c, delay, false, n, e, k);
    }
  }

  lemma AskMatches(c: Config, delay: real, w: World, n: World, e: Event, k: string)
    requires 0.0 <= delay && Matches(c, delay, w, n) && e.Ask? && Enabled(delay, w, e) && Enabled(delay, n, e)
    ensures KeyMatches(c, delay, Do(c, true, w, e), Do(c, false, n, e), k, e.at)
    ensures Do(c, true, w, e).answers == Do(c, false, n, e).answers
  {
    KeyTimePasses(c, delay, w, n, k, n.now, e.at);
    var key := w.pending[e.call].key;
    assert KeyMatches(c, delay, w, n, key, n.now);
    StaysSimilar(c, Held(w, key), Held(n, key), n.now, e.at);
    if k == key {
      TakeAges(c, delay, Held(n, k), n.entries[k].lastSeen, e.at);
    } else {
      OtherKey(c, delay, true, w, e, k);
      OtherKey(c, delay, false, n, e, k);
    }
  }

  lemma TakeAges(c: Config, delay: real, k: Bucket, lastSeen: real, now: real)
    requires Aged(c, delay, k, lastSeen, now) && now <= lastSeen + delay
    ensures Aged(c, delay, Take(c, k, now), lastSeen, now)
  {
  }

  lemma SweepMatches(c: Config, delay: real, w: World, n: World, e: Event, k: string)
    requires 0.0 <= delay <= c.ttl && Refill(c, c.ttl - delay) >= c.b as real
    requires Matches(c, delay, w, n) && e.Sweep? && Enabled(delay, w, e) && Enabled(delay, n, e)
    ensures KeyMatches(c, delay, Do(c, true, w, e), Do(c, false, n, e), k, e.at)
  {
    KeyTimePasses(c, delay, w, n, k, n.now, e.at);
    if k in w.entries && w.entries[k].lastSeen < e.started - c.ttl && !Full(c, Held(n, k), e.at) {
      IdleRefills(c, Held(n, k), c.ttl - delay, e.at);
    }
  }

  lemma StepKeyMatches(c: Config, delay: real, w: World, n: World, e: Event, k: string)
    requires 0.0 <= delay <= c.ttl && Refill(c, c.ttl - delay) >= c.b as real
    requires Matches(c, delay, w, n) && Enabled(delay, w, e) && Enabled(delay, n, e)
    ensures KeyMatches(c, delay, Do(c, true, w, e), Do(c, false, n, e), k, e.at)
  {
    match e {
      case Lookup(_, _, _) => LookupMatches(c, delay, w, n, e, k);
      case Ask(_, _) => AskMatches(c, delay, w, n, e, k);
      case Sweep(_, _) => SweepMatches(c, delay, w, n, e, k);
    }
  }

  lemma StepPending(c: Config, w: World, n: World, e: Event)
    requires WellFormed(w) && WellFormed(n) && SamePending(w, n) && (e.Ask? ==> e.call in w.pending)
    ensures SamePending(Do(c, true, w, e), Do(c, false, n, e))
    ensures Do(c, true, w, e).now == Do(c, false, n, e).now == e.at
    ensures !e.Ask? && w.answers == n.answers ==> Do(c, true, w, e).answers == Do(c, false, n, e).answers
  {
  }

  lemma StepMatches(c: Config, delay: real, w: World, n: World, e: Event)
    requires 0.0 <= delay <= c.ttl && Refill(c, c.ttl - delay) >= c.b as real
    requires Matches(c, delay, w, n) && Enabled(delay, w, e)
    ensures Enabled(delay, n, e) && Matches(c, delay, Do(c, true, w, e), Do(c, false, n, e))
  {
    assert Enabled(delay, n, e);
    var w', n' := Do(c, true, w, e), Do(c, false, n, e);
    StepPending(c, w, n, e);
    assert w'.answers == n'.answers by {
      if e.Ask? {
        AskMatches(c, delay, w, n, e, w.pending[e.call].key);
      }
    }
    assert Sane(delay, w') by { StepSane(c, delay, true, w, e); }
    assert Sane(delay, n') by { StepSane(c, delay, false, n, e); }
    forall k ensures KeyMatches(c, delay, w', n', k, n'.now) {
      StepKeyMatches(c, delay, w, n, e, k);
    }
  }

  lemma {:induction false} RunMatches(c: Config, delay: real, w: World, n: World, es: seq<Event>)
    requires 0.0 <= delay <= c.ttl && Refill(c, c.ttl - delay) >= c.b as real
    requires Matches(c, delay, w, n) && LegalRun(c, delay, true, w, es)
    ensures LegalRun(c, delay, false, n, es)
    ensures Matches(c, delay, Run(c, delay, true, w, es), Run(c, delay, false, n, es))
    decreases |es|
  {
    if es != [] {
      var e := es[0];
      StepMatches(c, delay, w, n, e);
      RunMatches(c, delay, Do(c, true, w, e), Do(c, false, n, e), es[1..]);
    }
  }

  /** Every schedule of lookups, questions and sweeps gets the same answers with eviction as without. */
  ghost predicate EvictionUnobservable(c: Config, delay: real) {
    forall es | LegalRun(c, delay, true, START, es) ::
      LegalRun(c, delay, false, START, es)
      && Run(c, delay, true, START, es).answers == Run(c, delay, false, START, es).answers
  }

  lemma RefillHidesEviction(c: Config, delay: real)
    requires 0.0 <= delay <= c.ttl && Refill(c, c.ttl - delay) >= c.b as real
    ensures EvictionUnobservable(c, delay)
  {
    forall es | LegalRun(c, delay, true, START, es)
      ensures LegalRun(c, delay, false, START, es)
        && Run(c, delay, true, START, es).answers == Run(c, delay, false, START, es).answers
    {
      assert Matches(c, delay, START, START);
      RunMatches(c, delay, START, START, es);
    }
  }

  // ---- the refill condition is also necessary

  lemma {:induction false} RunAppend(c: Config, delay: real, evict: bool, w: World, es: seq<Event>, fs: seq<Event>)
    requires WellFormed(w) && LegalRun(c, delay, evict, w, es)
    requires LegalRun(c, delay, evict, Run(c, delay, evict, w, es), fs)
    ensures LegalRun(c, delay, evict, w, es + fs)
    ensures Run(c, delay, evict, w, es + fs) == Run(c, delay, evict, Run(c, delay, evict, w, es), fs)
    decreases |es|
  {
    if es == [] {
      assert es + fs == fs;
    } else {
      assert (es + fs)[0] == es[0] && (es + fs)[1..] == es[1..] + fs;
      RunAppend(c, delay, evict, Do(c, evict, w, es[0]), es[1..], fs);
    }
  }

  /** Lookups of `key` at `t` by calls `i` to `n - 1`. */
  function Lookups(key: string, i: nat, n: nat, t: real): seq<Event>
    requires i <= n
    decreases n - i
  {
    if i == n then [] else [Lookup(i, key, t)] + Lookups(key, i + 1, n, t)
  }

  /** Questions at `t` by calls `n - 1` down to 0. */
  function Asks(n: nat, t: real): seq<Event> {
    if n == 0 then [] else [Ask(n - 1, t)] + Asks(n - 1, t)
  }

  /** Calls 0 to `n - 1` have looked up `key` at `since`. */
  ghost predicate Waiting(w: World, key: string, n: nat, since: real) {
    && WellFormed(w)
    && (forall i :: i in w.pending <==> 0 <= i < n)
    && (n > 0 ==> key in w.entries)
    && (forall i :: i in w.pending ==> w.pending[i] == Pending(key, w.entries[key].limiter, since))
  }

  lemma {:induction false} LookupsWait(c: Config, delay: real, evict: bool, w: World, key: string, i: nat, n: nat,
      t: real)
    requires i <= n && 0.0 <= delay && Waiting(w, key, i, t) && w.now <= t && (i > 0 ==> w.now == t)
    requires i > 0 ==> w.entries[key].lastSeen == t
    ensures LegalRun(c, delay, evict, w, Lookups(key, i, n, t))
    ensures var w' := Run(c, delay, evict, w, Lookups(key, i, n, t));
      && Waiting(w', key, n, t) && w'.answers == w.answers && (n > 0 ==> w'.now == t && w'.entries[key].lastSeen == t)
      && (n > 0 ==> Held(w', key) == if key in w.entries then Held(w, key) else NewBucket(c))
    decreases n - i
  {
    if i < n {
      LookupsWait(c, delay, evict, Do(c, evict, w, Lookup(i, key, t)), key, i + 1, n, t);
    }
  }

  /** Some request for `key` from index `i` on was turned away. */
  ghost predicate RefusedFrom(answers: seq<(string, bool)>, i: nat, key: string) {
    exists j :: i <= j < |answers| && answers[j] == (key, false)
  }

  /** One of `n` waiting calls asks. */
  lemma AskOnce(c: Config, delay: real, evict: bool, w: World, key: string, n: nat, since: real, t: real)
    requires n > 0 && Waiting(w, key, n, since) && since <= w.now <= t <= since + delay && c.b >= 1
    ensures Enabled(delay, w, Ask(n - 1, t))
    ensures var v, k := Do(c, evict, w, Ask(n - 1, t)), Held(w, key);
      && Waiting(v, key, n - 1, since) && v.entries == w.entries && v.now == t && Held(v, key) == Take(c, k, t)
      && v.answers == w.answers + [(key, Grants(c, k, t))]
      && (Grants(c, k, t) <==> Level(c, k, t) >= 1.0)
      && (Grants(c, k, t) ==>
        Take(c, k, t) == Bucket(Level(c, k, t) - 1.0, t) && Level(c, Take(c, k, t), t) == Level(c, k, t) - 1.0)
  {
  }

  /** `n` questions of a bucket at one instant are all granted if it holds `n` tokens, and not all otherwise. */
  lemma {:induction false} AsksDrain(c: Config, delay: real, evict: bool, w: World, key: string, n: nat, since: real,
      t: real)
    requires Waiting(w, key, n, since) && since <= w.now <= t <= since + delay && c.b >= 1 && key in w.entries
    ensures LegalRun(c, delay, evict, w, Asks(n, t))
    ensures var w' := Run(c, delay, evict, w, Asks(n, t)); Drained(c, w, w', key, n, since, t)
    decreases n
  {
    if n > 0 {
      var v := Do(c, evict, w, Ask(n - 1, t));
      AskOnce(c, delay, evict, w, key, n, since, t);
      AsksDrain(c, delay, evict, v, key, n - 1, since, t);
      DrainOneMore(c, w, v, Run(c, delay, evict, v, Asks(n - 1, t)), key, n, since, t);
    }
  }

  /** What `n` questions at `t` leave. */
  ghost predicate Drained(c: Config, w: World, w': World, key: string, n: nat, since: real, t: real)
    requires WellFormed(w) && WellFormed(w') && key in w.entries
  {
    var level := Level(c, Held(w, key), t);
    && Waiting(w', key, 0, since) && w'.entries == w.entries && (n > 0 ==> w'.now == t)
    && |w'.answers| == |w.answers| + n && w'.answers[..|w.answers|] == w.answers
    && (level >= n as real ==>
          (n > 0 ==> Held(w', key) == Bucket(level - n as real, t))
          && forall j :: |w.answers| <= j < |w'.answers| ==> w'.answers[j] == (key, true))
    && (n > 0 && level < n as real ==> RefusedFrom(w'.answers, |w.answers|, key))
  }

  lemma DrainOneMore(c: Config, w: World, v: World, w': World, key: string, n: nat, since: real, t: real)
    requires WellFormed(w) && WellFormed(v) && WellFormed(w') && n > 0 && key in w.entries && v.entries == w.entries
      && v.now == t
    requires var k := Held(w, key);
      && v.answers == w.answers + [(key, Grants(c, k, t))]
      && Held(v, key) == Take(c, k, t)
      && (Grants(c, k, t) <==> Level(c, k, t) >= 1.0)
      && (Grants(c, k, t) ==>
        Take(c, k, t) == Bucket(Level(c, k, t) - 1.0, t) && Level(c, Take(c, k, t), t) == Level(c, k, t) - 1.0)
    requires Drained(c, v, w', key, n - 1, since, t) && (n == 1 ==> w' == v)
    ensures Drained(c, w, w', key, n, since, t)
  {
    var level := Level(c, Held(w, key), t);
    assert w'.answers[..|w.answers|] == v.answers[..|w.answers|] == w.answers;
    assert w'.answers[|w.answers|] == w'.answers[..|v.answers|][|w.answers|] == (key, level >= 1.0);
    if level < n as real && level >= 1.0 {
      assert RefusedFrom(w'.answers, |v.answers|, key);
    }
  }

  function Burst(key: string, n: nat, since: real, t: real): seq<Event> { Lookups(key, 0, n, since) + Asks(n, t) }

  /** `n` calls look the key up at `since` and ask at `t`, starting with nobody waiting. */
  lemma BurstDrains(c: Config, delay: real, evict: bool, w: World, key: string, n: nat, since: real, t: real)
    requires Waiting(w, key, 0, since) && w.now <= since <= t <= since + delay && c.b >= 1 && n >= 1
    ensures LegalRun(c, delay, evict, w, Burst(key, n, since, t))
    ensures var w' := Run(c, delay, evict, w, Burst(key, n, since, t));
      var level := Level(c, if key in w.entries then Held(w, key) else NewBucket(c), t);
      && Waiting(w', key, 0, since) && w'.now == t && key in w'.entries && w'.entries[key].lastSeen == since
      && |w'.answers| == |w.answers| + n && w'.answers[..|w.answers|] == w.answers
      && (level >= n as real ==>
            Held(w', key) == Bucket(level - n as real, t)
            && forall j :: |w.answers| <= j < |w'.answers| ==> w'.answers[j] == (key, true))
      && (level < n as real ==> RefusedFrom(w'.answers, |w.answers|, key))
  {
    LookupsWait(c, delay, evict, w, key, 0, n, since);
    var v := Run(c, delay, evict, w, Lookups(key, 0, n, since));
    AsksDrain(c, delay, evict, v, key, n, since, t);
    RunAppend(c, delay, evict, w, Lookups(key, 0, n, since), Asks(n, t));
  }

  /** Of `n` requests for a new key at one instant, all are granted exactly if the burst allows as many. */
  lemma NewKeyBurst(c: Config, evict: bool, key: string, n: nat, t: real)
    requires c.b >= 1 && n >= 1 && t >= 0.0
    ensures LegalRun(c, 0.0, evict, START, Burst(key, n, t, t))
    ensures var answers := Run(c, 0.0, evict, START, Burst(key, n, t, t)).answers;
      |answers| == n && ((forall j :: 0 <= j < n ==> answers[j] == (key, true)) <==> n <= c.b)
  {
    BurstDrains(c, 0.0, evict, START, key, n, t, t);
    NewIsFull(c, t);
  }

  /** A burst, a sweep after the idle time, a second burst. */
  function TwoBursts(c: Config, delay: real, t: real): seq<Event>
    requires c.b >= 1
  {
    Burst("k", c.b, 0.0, delay) + ([Sweep(t, t)] + Burst("k", c.b, t, t))
  }

  lemma FirstBurst(c: Config, delay: real, t: real, evict: bool) returns (w: World)
    requires 0.0 <= delay <= c.ttl < t && c.b >= 1
    ensures LegalRun(c, delay, evict, START, Burst("k", c.b, 0.0, delay))
    ensures w == Do(c, evict, Run(c, delay, evict, START, Burst("k", c.b, 0.0, delay)), Sweep(t, t))
    ensures Waiting(w, "k", 0, t) && w.now == t && |w.answers| == c.b
    ensures forall j :: 0 <= j < |w.answers| ==> w.answers[j] == ("k", true)
    ensures if evict then "k" !in w.entries else "k" in w.entries && Held(w, "k") == Bucket(0.0, delay)
  {
    NewIsFull(c, delay);
    BurstDrains(c, delay, evict, START, "k", c.b, 0.0, delay);
    var w1 := Run(c, delay, evict, START, Burst("k", c.b, 0.0, delay));
    w := LateSweep(c, evict, w1, "k", t);
  }

  lemma NewIsFull(c: Config, t: real)
    requires 0.0 <= t
    ensures Level(c, NewBucket(c), t) == c.b as real
  {
    RefillMonotone(c, 0.0, t);
  }

  lemma LateSweep(c: Config, evict: bool, w1: World, key: string, t: real) returns (w: World)
    requires Waiting(w1, key, 0, 0.0) && key in w1.entries && w1.entries[key].lastSeen == 0.0 && c.ttl < t
    ensures w == Do(c, evict, w1, Sweep(t, t)) && w.now == t && w.answers == w1.answers && Waiting(w, key, 0, t)
    ensures if evict then key !in w.entries else key in w.entries && Held(w, key) == Held(w1, key)
  {
    w := Do(c, evict, w1, Sweep(t, t));
  }

  lemma SecondBurst(c: Config, delay: real, t: real, evict: bool, w: World)
    requires 0.0 <= delay <= c.ttl < t && c.b >= 1 && Refill(c, t - delay) < c.b as real
    requires Waiting(w, "k", 0, t) && w.now == t
    requires forall j :: 0 <= j < |w.answers| ==> w.answers[j] == ("k", true)
    requires if evict then "k" !in w.entries else "k" in w.entries && Held(w, "k") == Bucket(0.0, delay)
    ensures LegalRun(c, delay, evict, w, Burst("k", c.b, t, t))
    ensures var answers := Run(c, delay, evict, w, Burst("k", c.b, t, t)).answers;
      |answers| == |w.answers| + c.b
      && (evict ==> forall j :: 0 <= j < |answers| ==> answers[j] == ("k", true))
      && (!evict ==> RefusedFrom(answers, 0, "k"))
  {
    BurstDrains(c, delay, evict, w, "k", c.b, t, t);
    var answers := Run(c, delay, evict, w, Burst("k", c.b, t, t)).answers;
    if evict {
      NewIsFull(c, t);
      forall j | 0 <= j < |answers| ensures answers[j] == ("k", true) {
        if j < |w.answers| {
          assert answers[j] == answers[..|w.answers|][j];
        }
      }
    } else {
      assert RefusedFrom(answers, |w.answers|, "k");
    }
  }

  lemma TwoBurstsAnswers(c: Config, delay: real, t: real, evict: bool)
    requires 0.0 <= delay <= c.ttl < t && c.b >= 1 && Refill(c, t - delay) < c.b as real
    ensures LegalRun(c, delay, evict, START, TwoBursts(c, delay, t))
    ensures var answers := Run(c, delay, evict, START, TwoBursts(c, delay, t)).answers;
      |answers| == 2 * c.b
      && (evict ==> forall j :: 0 <= j < |answers| ==> answers[j] == ("k", true))
      && (!evict ==> RefusedFrom(answers, 0, "k"))
  {
    var w := FirstBurst(c, delay, t, evict);
    SecondBurst(c, delay, t, evict, w);
    var first, rest := Burst("k", c.b, 0.0, delay), Burst("k", c.b, t, t);
    var w1 := Run(c, delay, evict, START, first);
    assert w1.pending == map[] && w1.now == delay by { BurstDrains(c, delay, evict, START, "k", c.b, 0.0, delay); }
    StepThenRun(c, delay, evict, w1, Sweep(t, t), rest);
    RunAppend(c, delay, evict, START, first, [Sweep(t, t)] + rest);
  }

  lemma StepThenRun(c: Config, delay: real, evict: bool, w: World, e: Event, rest: seq<Event>)
    requires WellFormed(w) && Enabled(delay, w, e) && LegalRun(c, delay, evict, Do(c, evict, w, e), rest)
    ensures LegalRun(c, delay, evict, w, [e] + rest)
    ensures Run(c, delay, evict, w, [e] + rest) == Run(c, delay, evict, Do(c, evict, w, e), rest)
  {
    assert ([e] + rest)[0] == e && ([e] + rest)[1..] == rest;
  }

  /** A time after the idle limit at which the burst has not been refilled. */
  lemma LateMoment(c: Config, delay: real) returns (t: real)
    requires 0.0 <= delay <= c.ttl && Refill(c, c.ttl - delay) < c.b as real
    ensures c.ttl < t && Refill(c, t - delay) < c.b as real
  {
    var rate := Rate(c);
    if rate == 0.0 {
      t := c.ttl + 1.0;
    } else {
      var missing := c.b as real - rate * (c.ttl - delay);
      var g := missing / (2.0 * rate);
      assert g > 0.0 && rate * g == missing / 2.0;
      t := c.ttl + g;
      assert rate * (t - delay) == rate * (c.ttl - delay) + rate * g;
    }
  }

  /** The refill, in figures. */
  lemma RefillIsRate(c: Config, t: real)
    ensures c.r > 0.0 ==> Refill(c, t) == c.r * t
    ensures c.r <= 0.0 ==> Refill(c, t) == 0.0
  {
    if c.r > 0.0 {
      assert Rate(c) == c.r;
    } else {
      assert Rate(c) == 0.0;
    }
  }

  /** The rate refills the whole burst in the idle time that is left after `delay`; there may be none to refill. */
  predicate RefillsInTime(c: Config, delay: real) { c.b <= 0 || (c.r > 0.0 && c.r * (c.ttl - delay) >= c.b as real) }

  lemma RefillsInTimeIff(c: Config, delay: real)
    requires delay <= c.ttl
    ensures RefillsInTime(c, delay) <==> Refill(c, c.ttl - delay) >= c.b as real
  {
    RefillIsRate(c, c.ttl - delay);
    RefillMonotone(c, 0.0, c.ttl - delay);
  }

  /**
   * Eviction is unobservable, over all schedules in which a request asks its limiter at most `delay` after looking it
   * up, exactly when the rate refills the whole burst in the idle time that remains. With `delay` 0 (lookup and
   * question at the same instant) the condition is rate times ttl at least burst.
   */
  lemma EvictionUnobservableIff(c: Config, delay: real)
    requires 0.0 <= delay <= c.ttl
    ensures EvictionUnobservable(c, delay) <==> c.b <= 0 || (c.r > 0.0 && c.r * (c.ttl - delay) >= c.b as real)
  {
    EvictionByRefill(c, delay);
    RefillsInTimeIff(c, delay);
    assert RefillsInTime(c, delay) <==> c.b <= 0 || (c.r > 0.0 && c.r * (c.ttl - delay) >= c.b as real);
  }

  lemma EvictionByRefill(c: Config, delay: real)
    requires 0.0 <= delay <= c.ttl
    ensures EvictionUnobservable(c, delay) <==> Refill(c, c.ttl - delay) >= c.b as real
  {
    if Refill(c, c.ttl - delay) >= c.b as real {
      RefillHidesEviction(c, delay);
    } else {
      RefillMonotone(c, 0.0, c.ttl - delay);
      assert c.b >= 1;
      var t := LateMoment(c, delay);
      TwoBurstsAnswers(c, delay, t, true);
      TwoBurstsAnswers(c, delay, t, false);
      var es := TwoBursts(c, delay, t);
      assert Run(c, delay, true, START, es).answers != Run(c, delay, false, START, es).answers;
    }
  }

  // ---- how much a window of time admits

  /** Requests for `key` admitted so far. */
  function Granted(answers: seq<(string, bool)>, key: string): nat {
    if answers == [] then 0
    else Granted(answers[..|answers| - 1], key) + if answers[|answers| - 1] == (key, true) then 1 else 0
  }

  predicate Within(es: seq<Event>, from: real, to: real) { forall i :: 0 <= i < |es| ==> from <= es[i].at <= to }

  function Nonneg(x: real): real { if x < 0.0 then 0.0 else x }

  /** What the bucket of `key` could still grant at `t`. */
  function Allowance(c: Config, w: World, key: string, t: real): (a: real)
    requires WellFormed(w)
    ensures a >= 0.0
  {
    Nonneg(if key in w.entries then Level(c, Held(w, key), t) else c.b as real)
  }

  lemma TakeSpends(c: Config, k: Bucket, from: real, at: real)
    requires from <= at
    ensures Nonneg(Level(c, k, at)) <= Nonneg(Level(c, k, from)) + Refill(c, at - from)
    ensures Nonneg(Level(c, Take(c, k, at), at)) + (if Grants(c, k, at) then 1.0 else 0.0)
      <= Nonneg(Level(c, k, from)) + Refill(c, at - from)
  {
    LevelGrows(c, k, from, at);
    RefillMonotone(c, 0.0, at - from);
  }

  /** One event turns at most the refilled allowance into grants. */
  lemma GrantsSpendAllowance(c: Config, delay: real, w: World, e: Event, key: string, from: real)
    requires Sane(delay, w) && Enabled(delay, w, e) && from <= e.at
    ensures var w' := Do(c, false, w, e);
      Granted(w'.answers, key) as real + Allowance(c, w', key, e.at)
        <= Granted(w.answers, key) as real + Allowance(c, w, key, from) + Refill(c, e.at - from)
  {
    RefillMonotone(c, 0.0, e.at - from);
    match e {
      case Ask(_, _) => AskSpends(c, delay, w, e, key, from);
      case Lookup(_, _, _) => LookupSpends(c, delay, w, e, key, from);
      case Sweep(_, _) =>
        if key in w.entries { TakeSpends(c, Held(w, key), from, e.at); }
    }
  }

  lemma LookupHolds(c: Config, delay: real, w: World, e: Event, key: string)
    requires Sane(delay, w) && Enabled(delay, w, e) && e.Lookup?
    ensures var w' := Do(c, false, w, e);
      && (key in w.entries ==> key in w'.entries && Held(w', key) == Held(w, key))
      && (key !in w.entries && key in w'.entries ==> Held(w', key) == NewBucket(c))
  {
  }

  lemma LookupSpends(c: Config, delay: real, w: World, e: Event, key: string, from: real)
    requires Sane(delay, w) && Enabled(delay, w, e) && from <= e.at && e.Lookup?
    ensures Allowance(c, Do(c, false, w, e), key, e.at) <= Allowance(c, w, key, from) + Refill(c, e.at - from)
  {
    LookupHolds(c, delay, w, e, key);
    if key in w.entries {
      TakeSpends(c, Held(w, key), from, e.at);
    } else {
      RefillMonotone(c, 0.0, e.at - from);
      LevelAtMostBurst(c, NewBucket(c), e.at);
    }
  }

  lemma LevelAtMostBurst(c: Config, k: Bucket, t: real)
    ensures Level(c, k, t) <= c.b as real
  {
  }

  lemma AskCounts(c: Config, w: World, e: Event, key: string)
    requires WellFormed(w) && e.Ask? && e.call in w.pending
    ensures var p := w.pending[e.call];
      Granted(Do(c, false, w, e).answers, key)
        == Granted(w.answers, key) + if p.key == key && Grants(c, w.buckets[p.limiter], e.at) then 1 else 0
  {
    var w' := Do(c, false, w, e);
    assert w'.answers[..|w.answers|] == w.answers;
  }

  lemma AskSpends(c: Config, delay: real, w: World, e: Event, key: string, from: real)
    requires Sane(delay, w) && Enabled(delay, w, e) && from <= e.at && e.Ask?
    ensures var w' := Do(c, false, w, e);
      Granted(w'.answers, key) as real + Allowance(c, w', key, e.at)
        <= Granted(w.answers, key) as real + Allowance(c, w, key, from) + Refill(c, e.at - from)
  {
    AskCounts(c, w, e, key);
    if w.pending[e.call].key == key {
      AskAllowance(c, delay, w, e, from);
    } else {
      OtherAllowance(c, delay, w, e, key, from);
    }
  }

  lemma AskAllowance(c: Config, delay: real, w: World, e: Event, from: real)
    requires Sane(delay, w) && Enabled(delay, w, e) && from <= e.at && e.Ask?
    ensures var key := w.pending[e.call].key;
      Allowance(c, Do(c, false, w, e), key, e.at)
        + (if Grants(c, w.buckets[w.pending[e.call].limiter], e.at) then 1.0 else 0.0)
        <= Allowance(c, w, key, from) + Refill(c, e.at - from)
  {
    var key := w.pending[e.call].key;
    assert Held(Do(c, false, w, e), key) == Take(c, Held(w, key), e.at);
    TakeSpends(c, Held(w, key), from, e.at);
  }

  lemma OtherAllowance(c: Config, delay: real, w: World, e: Event, key: string, from: real)
    requires Sane(delay, w) && Enabled(delay, w, e) && from <= e.at && e.Ask? && w.pending[e.call].key != key
    ensures Allowance(c, Do(c, false, w, e), key, e.at) <= Allowance(c, w, key, from) + Refill(c, e.at - from)
  {
    OtherKey(c, delay, false, w, e, key);
    if key in w.entries {
      TakeSpends(c, Held(w, key), from, e.at);
    } else {
      RefillMonotone(c, 0.0, e.at - from);
    }
  }

  lemma TailWithin(c: Config, delay: real, w: World, es: seq<Event>, from: real, to: real)
    requires WellFormed(w) && es != [] && LegalRun(c, delay, false, w, es) && Within(es, from, to)
    ensures Within(es[1..], es[0].at, to)
  {
    var rest := es[1..];
    LegalTimes(c, delay, Do(c, false, w, es[0]), rest);
    forall i | 0 <= i < |rest| ensures es[0].at <= rest[i].at <= to {
      assert rest[i] == es[i + 1];
    }
  }

  /** What the key has been granted and may still be granted, measured against steady refill: it never grows. */
  function Potential(c: Config, w: World, key: string, at: real): real
    requires WellFormed(w)
  {
    Granted(w.answers, key) as real + Allowance(c, w, key, at) - Refill(c, at)
  }

  lemma StepLowersPotential(c: Config, delay: real, w: World, e: Event, key: string, from: real)
    requires Sane(delay, w) && Enabled(delay, w, e) && from <= e.at
    ensures Potential(c, Do(c, false, w, e), key, e.at) <= Potential(c, w, key, from)
  {
    GrantsSpendAllowance(c, delay, w, e, key, from);
    RefillDifference(c, from, e.at);
  }

  lemma GrantedWithinPotential(c: Config, w: World, key: string, from: real, to: real)
    requires WellFormed(w) && from <= to
    ensures Granted(w.answers, key) as real <= Potential(c, w, key, from) + Refill(c, to)
  {
    RefillMonotone(c, 0.0, to - from);
    RefillDifference(c, from, to);
  }

  lemma {:induction false} RunWithinPotential(c: Config, delay: real, w: World, es: seq<Event>, key: string,
                                              from: real, to: real, bound: real)
    requires 0.0 <= delay <= c.ttl && Sane(delay, w) && LegalRun(c, delay, false, w, es) && Within(es, from, to)
      && from <= to
    requires Potential(c, w, key, from) <= bound
    ensures Granted(Run(c, delay, false, w, es).answers, key) as real <= bound + Refill(c, to)
    decreases |es|
  {
    if es == [] {
      GrantedWithinPotential(c, w, key, from, to);
    } else {
      TailWithin(c, delay, w, es, from, to);
      StepSane(c, delay, false, w, es[0]);
      StepLowersPotential(c, delay, w, es[0], key, from);
      RunWithinPotential(c, delay, Do(c, false, w, es[0]), es[1..], key, es[0].at, to, bound);
    }
  }

  lemma RunSpendsAllowance(c: Config, delay: real, w: World, es: seq<Event>, key: string, from: real, to: real)
    requires 0.0 <= delay <= c.ttl && Sane(delay, w) && LegalRun(c, delay, false, w, es) && Within(es, from, to)
      && from <= to
    ensures Granted(Run(c, delay, false, w, es).answers, key) as real
      <= Granted(w.answers, key) as real + Allowance(c, w, key, from) + Refill(c, to - from)
  {
    RunWithinPotential(c, delay, w, es, key, from, to, Potential(c, w, key, from));
    RefillDifference(c, from, to);
  }

  lemma {:induction false} LegalTimes(c: Config, delay: real, w: World, es: seq<Event>)
    requires WellFormed(w) && LegalRun(c, delay, false, w, es)
    ensures forall i :: 0 <= i < |es| ==> w.now <= es[i].at
    decreases |es|
  {
    if es != [] {
      var rest := es[1..];
      LegalTimes(c, delay, Do(c, false, w, es[0]), rest);
      forall i | 0 <= i < |es| ensures w.now <= es[i].at {
        assert i > 0 ==> es[i] == rest[i - 1];
      }
    }
  }

  /**
   * Whatever happened before, and however often the key's bucket was evicted and created again, the requests for a
   * key admitted while the clock is between `from` and `to` number at most the burst plus the rate times the length.
   */
  lemma WindowBound(c: Config, delay: real, before: seq<Event>, window: seq<Event>, key: string, from: real, to: real)
    requires 0.0 <= delay <= c.ttl && (c.b <= 0 || (c.r > 0.0 && c.r * (c.ttl - delay) >= c.b as real))
    requires from <= to && Within(window, from, to) && LegalRun(c, delay, true, START, before)
    requires LegalRun(c, delay, true, Run(c, delay, true, START, before), window)
    ensures var w := Run(c, delay, true, START, before);
      Granted(Run(c, delay, true, w, window).answers, key) as real - Granted(w.answers, key) as real
        <= (if c.b > 0 then c.b as real else 0.0) + (if c.r > 0.0 then c.r * (to - from) else 0.0)
  {
    assert RefillsInTime(c, delay);
    RefillsInTimeIff(c, delay);
    WindowByRefill(c, delay, before, window, key, from, to);
    WithinFigures(c, Granted(Run(c, delay, true, Run(c, delay, true, START, before), window).answers, key) as real
      - Granted(Run(c, delay, true, START, before).answers, key) as real, from, to);
  }

  lemma WithinFigures(c: Config, x: real, from: real, to: real)
    requires x <= Nonneg(c.b as real) + Refill(c, to - from)
    ensures x <= (if c.b > 0 then c.b as real else 0.0) + (if c.r > 0.0 then c.r * (to - from) else 0.0)
  {
    RefillIsRate(c, to - from);
  }

  lemma WindowByRefill(c: Config, delay: real, before: seq<Event>, window: seq<Event>, key: string, from: real,
      to: real)
    requires 0.0 <= delay <= c.ttl && Refill(c, c.ttl - delay) >= c.b as real && from <= to && Within(window, from, to)
    requires LegalRun(c, delay, true, START, before)
    requires LegalRun(c, delay, true, Run(c, delay, true, START, before), window)
    ensures var w := Run(c, delay, true, START, before);
      Granted(Run(c, delay, true, w, window).answers, key) as real - Granted(w.answers, key) as real
        <= Nonneg(c.b as real) + Refill(c, to - from)
  {
    assert Matches(c, delay, START, START);
    RunMatches(c, delay, START, START, before);
    var w, n := Run(c, delay, true, START, before), Run(c, delay, false, START, before);
    RunMatches(c, delay, w, n, window);
    RunSpendsAllowance(c, delay, n, window, key, from, to);
  }

  lemma {:induction false} AllGranted(answers: seq<(string, bool)>, key: string)
    requires forall j :: 0 <= j < |answers| ==> answers[j] == (key, true)
    ensures Granted(answers, key) == |answers|
  {
    if answers != [] {
      AllGranted(answers[..|answers| - 1], key);
    }
  }

  /** Without the refill condition some run admits more than that between the first question and the last. */
  lemma WindowBoundFails(c: Config, delay: real) returns (es: seq<Event>, t: real)
    requires 0.0 <= delay <= c.ttl && !(c.b <= 0 || (c.r > 0.0 && c.r * (c.ttl - delay) >= c.b as real))
    ensures t >= delay && LegalRun(c, delay, true, START, es)
    ensures forall i :: 0 <= i < |es| && es[i].Ask? ==> delay <= es[i].at <= t
    ensures Granted(Run(c, delay, true, START, es).answers, "k") as real
      > c.b as real + (if c.r > 0.0 then c.r * (t - delay) else 0.0)
  {
    assert !RefillsInTime(c, delay);
    RefillsInTimeIff(c, delay);
    es, t := WindowFailsByRefill(c, delay);
    BeyondFigures(c, Granted(Run(c, delay, true, START, es).answers, "k") as real, delay, t);
  }

  lemma BeyondFigures(c: Config, x: real, from: real, to: real)
    requires x > c.b as real + Refill(c, to - from)
    ensures x > c.b as real + (if c.r > 0.0 then c.r * (to - from) else 0.0)
  {
    RefillIsRate(c, to - from);
  }

  lemma WindowFailsByRefill(c: Config, delay: real) returns (es: seq<Event>, t: real)
    requires 0.0 <= delay <= c.ttl && Refill(c, c.ttl - delay) < c.b as real
    ensures t >= delay && LegalRun(c, delay, true, START, es)
    ensures forall i :: 0 <= i < |es| && es[i].Ask? ==> delay <= es[i].at <= t
    ensures Granted(Run(c, delay, true, START, es).answers, "k") as real > c.b as real + Refill(c, t - delay)
  {
    RefillMonotone(c, 0.0, c.ttl - delay);
    t := LateMoment(c, delay);
    es := TwoBursts(c, delay, t);
    TwoBurstsAnswers(c, delay, t, true);
    AllGranted(Run(c, delay, true, START, es).answers, "k");
    BurstTimes("k", c.b, 0.0, delay);
    BurstTimes("k", c.b, t, t);
  }

  lemma {:induction false} LookupsOnly(key: string, i: nat, n: nat, t: real)
    requires i <= n
    ensures forall e :: e in Lookups(key, i, n, t) ==> e.Lookup?
    decreases n - i
  {
    if i < n { LookupsOnly(key, i + 1, n, t); }
  }

  lemma {:induction false} AskTimes(n: nat, t: real)
    ensures forall e :: e in Asks(n, t) ==> e.at == t
  {
    if n > 0 { AskTimes(n - 1, t); }
  }

  lemma BurstTimes(key: string, n: nat, since: real, t: real)
    ensures forall e :: e in Burst(key, n, since, t) && e.Ask? ==> e.at == t
  {
    LookupsOnly(key, 0, n, since);
    AskTimes(n, t);
  }

  /** The limiters the router installs (rates 100, 10, 5; bursts 20, 5, 5) meet the condition with minutes to spare. */
  lemma RouterLimitersQualify(r: real, b: int, delay: real)
    requires (r, b) in {(100.0, 20), (10.0, 5), (5.0, 5)} && 0.0 <= delay <= 599.0
    ensures EvictionUnobservable(Config(r, b, ENTRY_TTL), delay)
  {
    var c := Config(r, b, ENTRY_TTL);
    RefillMonotone(c, 1.0, c.ttl - delay);
    RefillHidesEviction(c, delay);
  }

  /** With the installed idle time a sweep removes an entry exactly if nobody asked for it in the ten minutes before. */
  lemma IdleForTenMinutes(r: real, b: int, w: World, started: real, at: real, key: string)
    requires WellFormed(w)
    ensures key in Do(Config(r, b, ENTRY_TTL), true, w, Sweep(started, at)).entries
      <==> key in w.entries && w.entries[key].lastSeen >= started - 600.0
  {
  }

  // ---- the objects

  /** `rate.Limiter`. */
  class Limiter {
    const c: Config
    var tokens: real
    var last: real

    ghost function State(): Bucket
      reads this
    {
      Bucket(tokens, last)
    }

    constructor (c: Config)
      ensures this.c == c && State() == NewBucket(c)
    {
      this.c, tokens, last := c, c.b as real, 0.0;
    }

    method Allow(now: real) returns (ok: bool)
      modifies this
      ensures ok == Grants(c, old(State()), now) && State() == Take(c, old(State()), now)
      ensures c.b >= 1 && old(last) <= now ==>
        (ok <==> old(tokens) + (if c.r > 0.0 then c.r else 0.0) * (now - old(last)) >= 1.0)
      ensures !ok ==> tokens == old(tokens) && last == old(last)
      ensures ok ==> last == now && 0.0 <= tokens <= c.b as real - 1.0
      ensures ok && old(last) <= now ==>
        var held := old(tokens) + (if c.r > 0.0 then c.r else 0.0) * (now - old(last));
        tokens == if held > c.b as real then c.b as real - 1.0 else held - 1.0
    {
      GrantsExactly(c, State(), now);
      if c.b >= 1 { TakesOne(c, State(), now); }
      var elapsed := if now < last then 0.0 else now - last;
      var held := tokens + Refill(c, elapsed);
      if held > c.b as real {
        held := c.b as real;
      }
      held := held - 1.0;
      ok := 1 <= c.b && held >= 0.0;
      if ok {
        last := now;
        tokens := held;
      }
    }
  }

  /** `limiterEntry`: a limiter and when it was last looked up. */
  class LimiterEntry {
    const limiter: Limiter
    var lastSeen: real

    constructor (limiter: Limiter)
      ensures this.limiter == limiter
    {
      this.limiter := limiter;
      lastSeen := 0.0;
    }
  }

  class KeyedLimiter {
    const c: Config
    var limiters: map<string, LimiterEntry>

    /** Distinct keys have distinct entries and distinct limiters. */
    ghost predicate Valid()
      reads this, limiters.Values
    {
      && (forall k :: k in limiters ==> limiters[k].limiter.c == c)
      && (forall k, k' :: k in limiters && k' in limiters && k != k' ==>
            limiters[k] != limiters[k'] && limiters[k].limiter != limiters[k'].limiter)
    }

    ghost function View(): map<string, Entry<Limiter>>
      reads this, limiters.Values
    {
      map k | k in limiters :: Entry(limiters[k].limiter, limiters[k].lastSeen)
    }

    constructor (c: Config)
      ensures Valid() && this.c == c && View() == map[]
    {
      this.c := c;
      limiters := map[];
    }

    method Get(key: string, now: real) returns (limiter: Limiter)
      requires Valid()
      modifies this, limiters.Values
      ensures Valid() && View() == Touched(old(View()), key, limiter, now)
      ensures View().Keys == old(View()).Keys + {key} && View()[key].lastSeen == now
      ensures forall k :: k in old(View()) && k != key ==> View()[k] == old(View())[k]
      ensures key in old(View()) ==> limiter == old(View())[key].limiter
      ensures View()[key].limiter == limiter
      ensures key !in old(View()) ==> fresh(limiter) && limiter.State() == NewBucket(c)
    {
      var entry: LimiterEntry;
      if key in limiters {
        entry := limiters[key];
      } else {
        limiter := new Limiter(c);
        entry := new LimiterEntry(limiter);
        limiters := limiters[key := entry];
      }
      entry.lastSeen := now;
      limiter := entry.limiter;
    }

    /** One tick of `cleanupLoop`; the entries are visited in an arbitrary order. */
    method Sweep(cutoff: real)
      requires Valid()
      modifies this
      ensures Valid() && View() == Swept(old(View()), cutoff)
      ensures forall k :: k in View() <==> k in old(View()) && old(View())[k].lastSeen >= cutoff
      ensures forall k :: k in View() ==> View()[k] == old(View())[k]
    {
      var todo := limiters.Keys;
      while todo != {}
        invariant todo <= limiters.Keys <= old(limiters).Keys
        invariant forall k :: k in limiters ==> limiters[k] == old(limiters)[k]
        invariant forall k :: k in old(limiters) && k !in todo ==>
          (k in limiters <==> !(old(limiters)[k].lastSeen < cutoff))
      {
        var key :| key in todo;
        if limiters[key].lastSeen < cutoff {
          limiters := limiters - {key};
        }
        todo := todo - {key};
      }
    }

    /** The middleware's test: look the limiter up, then ask it. */
    method Admit(key: string, now: real, later: real) returns (ok: bool)
      requires Valid()
      modifies this, limiters.Values, set k | k in limiters :: limiters[k].limiter
      ensures Valid() && key in View() && View() == Touched(old(View()), key, View()[key].limiter, now)
      ensures key in old(View()) ==> ok == Grants(c, old(View()[key].limiter.State()), later)
      ensures key in old(View()) ==> View()[key].limiter.State() == Take(c, old(View()[key].limiter.State()), later)
      ensures key !in old(View()) ==> ok == Grants(c, NewBucket(c), later)
      ensures forall k :: k in old(View()) && k != key ==> View()[k].limiter.State() == old(View()[k].limiter.State())
    {
      var limiter := Get(key, now);
      ok := limiter.Allow(later);
    }
  }
}
