/** The Closed -> Open -> HalfOpen breaker of internal/infrastructure/resilience/circuit_breaker.go. */
module CircuitBreakers {
  import opened Common

  datatype CircuitState = Closed | Open | HalfOpen

  datatype Config = Config(failureThreshold: int, resetTimeout: int)

  /** The mutable fields of the breaker. */
  datatype Fields = Fields(consecutiveFailures: int, state: CircuitState, openedAt: int, probeInFlight: bool)

  /** One critical section of the breaker, with the clock reading it takes. */
  datatype Event = Allow(at: int) | Success | Failure(at: int)

  const INITIAL := Fields(0, Closed, 0, false)

  // ---- what the code does to the fields

  function StateLocked(c: Config, f: Fields, now: int): CircuitState {
    if f.state == Open && now - f.openedAt >= c.resetTimeout then HalfOpen else f.state
  }

  predicate Admits(c: Config, f: Fields, now: int) {
    match StateLocked(c, f, now)
    case Closed => true
    case Open => false
    case HalfOpen => !f.probeInFlight
  }

  function Apply(c: Config, f: Fields, e: Event): Fields {
    match e
    case Allow(now) =>
      if StateLocked(c, f, now) == HalfOpen && !f.probeInFlight then f.(probeInFlight := true) else f
    case Success => f.(consecutiveFailures := 0, state := Closed, probeInFlight := false)
    case Failure(now) =>
      var n := f.consecutiveFailures + 1;
      if n >= c.failureThreshold then Fields(n, Open, now, false) else f.(consecutiveFailures := n)
  }

  function Replay(c: Config, h: seq<Event>): Fields {
    if h == [] then INITIAL else Apply(c, Replay(c, h[..|h| - 1]), h[|h| - 1])
  }

  // ---- what the history says, without the fields

  /** Failures recorded since the last recorded success. */
  function Streak(h: seq<Event>): nat {
    if h == [] then 0
    else
      match h[|h| - 1]
      case Allow(_) => Streak(h[..|h| - 1])
      case Success => 0
      case Failure(_) => Streak(h[..|h| - 1]) + 1
  }

  /** Time of the latest recorded failure; 0, the zero time, when there is none. */
  function LatestFailure(h: seq<Event>): int {
    if h == [] then 0
    else if h[|h| - 1].Failure? then h[|h| - 1].at
    else LatestFailure(h[..|h| - 1])
  }

  /** The state a caller sees at `now`. With a threshold of at least 1 the first test is subsumed by the second. */
  function VisibleState(c: Config, h: seq<Event>, now: int): CircuitState {
    if Streak(h) == 0 || Streak(h) < c.failureThreshold then Closed
    else if now - LatestFailure(h) >= c.resetTimeout then HalfOpen
    else Open
  }

  ghost predicate OnlyAllows(h: seq<Event>, from: int, to: int) {
    forall k :: from <= k < to && 0 <= k < |h| ==> h[k].Allow?
  }

  /** Some request arrived while half-open, and nothing has been recorded since. */
  ghost predicate ProbeTaken(c: Config, h: seq<Event>) {
    exists i :: ProbeAt(c, h, i)
  }

  ghost predicate ProbeAt(c: Config, h: seq<Event>, i: int) {
    0 <= i < |h| && OnlyAllows(h, i, |h|) && VisibleState(c, h[..i], h[i].at) == HalfOpen
  }

  /** The answer to a request at `now` after history `h`. */
  ghost predicate AdmittedAfter(c: Config, h: seq<Event>, now: int) {
    var v := VisibleState(c, h, now);
    v == Closed || (v == HalfOpen && !ProbeTaken(c, h))
  }

  lemma ProbeStep(c: Config, h: seq<Event>, e: Event)
    ensures ProbeTaken(c, h + [e]) <==> e.Allow? && (ProbeTaken(c, h) || VisibleState(c, h, e.at) == HalfOpen)
  {
    var h' := h + [e];
    assert h'[|h|] == e && h'[..|h|] == h;
    if e.Allow? {
      if ProbeTaken(c, h) {
        var i :| ProbeAt(c, h, i);
        assert h'[..i] == h[..i];
        assert ProbeAt(c, h', i);
      }
      if VisibleState(c, h, e.at) == HalfOpen {
        assert ProbeAt(c, h', |h|);
      }
      if ProbeTaken(c, h') {
        var i :| ProbeAt(c, h', i);
        if i < |h| {
          assert h'[..i] == h[..i];
          forall k | i <= k < |h| ensures h[k].Allow? { assert h'[k].Allow?; }
          assert ProbeAt(c, h, i);
        }
      }
    } else {
      assert !h'[|h|].Allow?;
    }
  }

  /**
   * For every threshold and every history the fields are a function of the history: the count is the failure streak,
   * the stored state is open exactly when the streak has reached the threshold (and never half-open), the opening time
   * is that of the latest failure, and the probe flag, which implies stored open, says that a probe is out.
   */
  lemma {:induction false} FieldsAreHistory(c: Config, h: seq<Event>)
    ensures Replay(c, h).consecutiveFailures == Streak(h)
    ensures Replay(c, h).state == if Streak(h) == 0 || Streak(h) < c.failureThreshold then Closed else Open
    ensures Replay(c, h).state == Open ==> Replay(c, h).openedAt == LatestFailure(h)
    ensures Replay(c, h).probeInFlight <==> ProbeTaken(c, h)
    ensures Replay(c, h).probeInFlight ==> Replay(c, h).state == Open
  {
    if h != [] {
      var p, e := h[..|h| - 1], h[|h| - 1];
      FieldsAreHistory(c, p);
      assert p + [e] == h;
      ProbeStep(c, p, e);
    }
  }

  lemma VisibleStateIsHistory(c: Config, h: seq<Event>, now: int)
    ensures StateLocked(c, Replay(c, h), now) == VisibleState(c, h, now)
    ensures Admits(c, Replay(c, h), now) <==> AdmittedAfter(c, h, now)
  {
    FieldsAreHistory(c, h);
  }

  ghost predicate AdmittedAt(c: Config, h: seq<Event>, i: int)
    requires 0 <= i < |h|
  {
    h[i].Allow? && AdmittedAfter(c, h[..i], h[i].at)
  }

  lemma {:induction false} AllowsKeepStreak(h: seq<Event>, i: nat)
    requires i <= |h| && OnlyAllows(h, i, |h|)
    ensures Streak(h) == Streak(h[..i]) && LatestFailure(h) == LatestFailure(h[..i])
  {
    if i < |h| {
      var p := h[..|h| - 1];
      assert h[|h| - 1].Allow?;
      AllowsKeepStreak(p, i);
      assert p[..i] == h[..i];
    } else {
      assert h[..i] == h;
    }
  }

  /**
   * Between two consecutive records a breaker that is not closed admits at most one request, and none before the
   * reset timeout has passed since the latest failure.
   */
  lemma OneProbeBetweenRecords(c: Config, h: seq<Event>, i: int, j: int)
    requires 0 <= i < j < |h| && OnlyAllows(h, i, j + 1)
    requires VisibleState(c, h[..i], h[i].at) != Closed
    ensures !(AdmittedAt(c, h, i) && AdmittedAt(c, h, j))
    ensures AdmittedAt(c, h, i) ==> h[i].at >= LatestFailure(h[..i]) + c.resetTimeout
    ensures AdmittedAt(c, h, j) ==> h[j].at >= LatestFailure(h[..i]) + c.resetTimeout
  {
    var hj := h[..j];
    assert hj[..i] == h[..i];
    AllowsKeepStreak(hj, i);
    if AdmittedAt(c, h, i) {
      assert ProbeAt(c, hj, i);
    }
  }

  // ---- concurrent callers: admitted calls finish later, in any order

  /** The breaker, the number of admitted calls that have not finished, and the clock. */
  datatype Callers = Callers(breaker: Fields, inFlight: nat, now: int)

  /**
   * A call arrives, or an admitted call finishes: well, with a retryable error, or with an error that records nothing.
   */
  datatype Move = Arrive(at: int) | EndOk(at: int) | EndRetryable(at: int) | EndOther(at: int)

  predicate Legal(s: Callers, m: Move) { m.at >= s.now && (m.Arrive? || s.inFlight > 0) }

  function Go(c: Config, s: Callers, m: Move): Callers
    requires Legal(s, m)
  {
    match m
    case Arrive(at) =>
      Callers(Apply(c, s.breaker, Allow(at)), if Admits(c, s.breaker, at) then s.inFlight + 1 else s.inFlight, at)
    case EndOk(at) => Callers(Apply(c, s.breaker, Success), s.inFlight - 1, at)
    case EndRetryable(at) => Callers(Apply(c, s.breaker, Failure(at)), s.inFlight - 1, at)
    case EndOther(at) => Callers(s.breaker, s.inFlight - 1, at)
  }

  predicate LegalRun(c: Config, s: Callers, ms: seq<Move>)
    decreases |ms|
  {
    ms == [] || (Legal(s, ms[0]) && LegalRun(c, Go(c, s, ms[0]), ms[1..]))
  }

  function End(c: Config, s: Callers, ms: seq<Move>): Callers
    requires LegalRun(c, s, ms)
    decreases |ms|
  {
    if ms == [] then s else End(c, Go(c, s, ms[0]), ms[1..])
  }

  lemma RunOne(c: Config, s: Callers, m: Move)
    requires Legal(s, m)
    ensures LegalRun(c, s, [m]) && End(c, s, [m]) == Go(c, s, m)
  {
    assert [m][1..] == [] && End(c, Go(c, s, m), []) == Go(c, s, m);
  }

  lemma RunTwo(c: Config, s: Callers, m: Move, m': Move)
    requires Legal(s, m) && Legal(Go(c, s, m), m')
    ensures LegalRun(c, s, [m, m']) && End(c, s, [m, m']) == Go(c, Go(c, s, m), m')
  {
    RunOne(c, Go(c, s, m), m');
    assert [m, m'][1..] == [m'];
  }

  /** What a move records: an arrival asks the breaker, and a non-retryable end leaves no trace. */
  function EventOf(m: Move): seq<Event> {
    match m
    case Arrive(at) => [Allow(at)]
    case EndOk(_) => [Success]
    case EndRetryable(at) => [Failure(at)]
    case EndOther(_) => []
  }

  function EventsOf(ms: seq<Move>): seq<Event> { if ms == [] then [] else EventOf(ms[0]) + EventsOf(ms[1..]) }

  lemma MoveIsReplay(c: Config, h: seq<Event>, s: Callers, m: Move)
    requires s.breaker == Replay(c, h) && Legal(s, m)
    ensures Go(c, s, m).breaker == Replay(c, h + EventOf(m))
  {
    var now := EventOf(m);
    if now == [] {
      assert h + now == h;
    } else {
      assert (h + now)[..|h|] == h && (h + now)[|h|] == now[0];
    }
  }

  lemma Associate(a: seq<Event>, b: seq<Event>, c: seq<Event>)
    ensures a + b + c == a + (b + c)
  {
  }

  /** Concurrent callers do to the breaker what the events they cause do in that order. */
  lemma {:induction false} RunIsReplay(c: Config, h: seq<Event>, s: Callers, ms: seq<Move>)
    requires s.breaker == Replay(c, h) && LegalRun(c, s, ms)
    ensures End(c, s, ms).breaker == Replay(c, h + EventsOf(ms))
    decreases |ms|
  {
    if ms == [] {
      assert h + [] == h;
    } else {
      MoveIsReplay(c, h, s, ms[0]);
      RunIsReplay(c, h + EventOf(ms[0]), Go(c, s, ms[0]), ms[1..]);
      Associate(h, EventOf(ms[0]), EventsOf(ms[1..]));
    }
  }

  const NOBODY := Callers(INITIAL, 0, 0)

  /** Every breaker that callers can bring about is one that `FieldsAreHistory` speaks of. */
  lemma ReachedIsSound(c: Config, ms: seq<Move>)
    requires LegalRun(c, NOBODY, ms)
    ensures var s := End(c, NOBODY, ms); s.breaker == Replay(c, EventsOf(ms)) && Sound(s.breaker)
  {
    RunIsReplay(c, [], NOBODY, ms);
    assert [] + EventsOf(ms) == EventsOf(ms);
    FieldsAreHistory(c, EventsOf(ms));
  }

  /** What `FieldsAreHistory` gives for every reachable breaker. */
  predicate Sound(f: Fields) { f.state != HalfOpen && (f.probeInFlight ==> f.state == Open) }

  /** The probe is out and no call is left to report on it. */
  predicate Wedged(s: Callers) { s.breaker.probeInFlight && s.inFlight == 0 }

  lemma {:induction false} WedgedForever(c: Config, s: Callers, ms: seq<Move>)
    requires Sound(s.breaker) && Wedged(s) && LegalRun(c, s, ms)
    ensures End(c, s, ms).breaker == s.breaker && End(c, s, ms).inFlight == 0
    ensures forall now :: !Admits(c, End(c, s, ms).breaker, now)
    decreases |ms|
  {
    if ms != [] {
      WedgedForever(c, Go(c, s, ms[0]), ms[1..]);
    }
  }

  ghost predicate CanClose(c: Config, s: Callers) {
    exists ms :: LegalRun(c, s, ms) && End(c, s, ms).breaker.state == Closed
  }

  /**
   * A probe that ends in a non-retryable error records nothing, so its flag stays set: from then on, when no other
   * admitted call is running, the breaker rejects for ever. From every other reachable situation it can close again.
   */
  lemma RecoversIffNotWedged(c: Config, s: Callers)
    requires Sound(s.breaker)
    ensures CanClose(c, s) <==> !Wedged(s)
  {
    if Wedged(s) {
      forall ms | LegalRun(c, s, ms) ensures End(c, s, ms).breaker.state != Closed {
        WedgedForever(c, s, ms);
      }
    } else if s.breaker.state == Closed {
      assert LegalRun(c, s, []) && End(c, s, []).breaker.state == Closed;
    } else if s.inFlight > 0 {
      RunOne(c, s, EndOk(s.now));
    } else {
      var t := Max(s.now, s.breaker.openedAt + c.resetTimeout);
      RunTwo(c, s, Arrive(t), EndOk(t));
    }
  }

  lemma {:induction false} Append(c: Config, s: Callers, ms: seq<Move>, ns: seq<Move>)
    requires LegalRun(c, s, ms) && LegalRun(c, End(c, s, ms), ns)
    ensures LegalRun(c, s, ms + ns) && End(c, s, ms + ns) == End(c, End(c, s, ms), ns)
    decreases |ms|
  {
    if ms == [] {
      assert ms + ns == ns;
    } else {
      assert (ms + ns)[0] == ms[0] && (ms + ns)[1..] == ms[1..] + ns;
      Append(c, Go(c, s, ms[0]), ms[1..], ns);
    }
  }

  /** `n` calls, one after another, that end in retryable errors. */
  function Failing(n: nat): seq<Move> { if n == 0 then [] else Failing(n - 1) + [Arrive(0), EndRetryable(0)] }

  lemma {:induction false} FailingOpens(c: Config, n: nat)
    requires c.failureThreshold >= 1 && n <= c.failureThreshold
    ensures LegalRun(c, NOBODY, Failing(n))
    ensures End(c, NOBODY, Failing(n))
      == Callers(Fields(n, if n == c.failureThreshold then Open else Closed, 0, false), 0, 0)
  {
    if n > 0 {
      FailingOpens(c, n - 1);
      var s := End(c, NOBODY, Failing(n - 1));
      RunTwo(c, s, Arrive(0), EndRetryable(0));
      Append(c, NOBODY, Failing(n - 1), [Arrive(0), EndRetryable(0)]);
    }
  }

  /** When the probe comes: not before the timeout. */
  function ProbeTime(c: Config): int { Max(0, c.resetTimeout) }

  /**
   * The run that wedges a new breaker, for every threshold: as many failures, a probe after the timeout, and its
   * non-retryable end.
   */
  lemma NonRetryableProbeWedges(c: Config)
    requires c.failureThreshold >= 1
    ensures var ms := Failing(c.failureThreshold) + [Arrive(ProbeTime(c)), EndOther(ProbeTime(c))];
      LegalRun(c, NOBODY, ms) && Wedged(End(c, NOBODY, ms))
  {
    FailingOpens(c, c.failureThreshold);
    var s, t := End(c, NOBODY, Failing(c.failureThreshold)), ProbeTime(c);
    RunTwo(c, s, Arrive(t), EndOther(t));
    Append(c, NOBODY, Failing(c.failureThreshold), [Arrive(t), EndOther(t)]);
  }

  /** Whatever callers have done to a new breaker, it can close again exactly when it is not wedged. */
  lemma ReachedRecoversIffNotWedged(c: Config, ms: seq<Move>)
    requires LegalRun(c, NOBODY, ms)
    ensures CanClose(c, End(c, NOBODY, ms)) <==> !Wedged(End(c, NOBODY, ms))
  {
    ReachedIsSound(c, ms);
    RecoversIffNotWedged(c, End(c, NOBODY, ms));
  }

  /**
   * A probe that ends in success or in a retryable error always clears the probe flag: success closes the breaker,
   * a retryable error reopens it for exactly one more reset timeout.
   */
  lemma RecordedProbeClearsFlag(c: Config, h: seq<Event>, e: Event, now: int)
    requires ProbeTaken(c, h) && !e.Allow?
    ensures !Replay(c, h + [e]).probeInFlight
    ensures e.Success? ==> VisibleState(c, h + [e], now) == Closed
    ensures e.Failure? ==> (AdmittedAfter(c, h + [e], now) <==> now >= e.at + c.resetTimeout)
  {
    var h' := h + [e];
    assert h'[..|h|] == h && h'[|h|] == e;
    FieldsAreHistory(c, h);
    FieldsAreHistory(c, h');
    ProbeStep(c, h, e);
  }

  /**
   * What a record means for the requests that follow. A success admits them all; a failure that brings the streak to
   * the threshold, the first or a later one, turns them away until exactly one reset timeout after it; a failure that
   * does not leaves the breaker closed.
   */
  lemma RecordDecides(c: Config, h: seq<Event>, at: int, now: int)
    ensures AdmittedAfter(c, h + [Success], now)
    ensures Streak(h) + 1 >= c.failureThreshold ==>
      (AdmittedAfter(c, h + [Failure(at)], now) <==> now >= at + c.resetTimeout)
    ensures Streak(h) + 1 < c.failureThreshold ==> AdmittedAfter(c, h + [Failure(at)], now)
  {
    var ok, failed := h + [Success], h + [Failure(at)];
    assert ok[..|h|] == h && ok[|h|] == Success && failed[..|h|] == h && failed[|h|] == Failure(at);
    ProbeStep(c, h, Failure(at));
  }

  /** The streak: failures add one, a success starts anew, requests change nothing. */
  lemma StreakCounts(h: seq<Event>, at: int)
    ensures Streak([]) == 0 && Streak(h + [Allow(at)]) == Streak(h)
    ensures Streak(h + [Success]) == 0 && Streak(h + [Failure(at)]) == Streak(h) + 1
  {
    assert (h + [Allow(at)])[..|h|] == h && (h + [Success])[..|h|] == h && (h + [Failure(at)])[..|h|] == h;
  }

  /** The breaker object; each method is one critical section under the mutex, reading the clock once. */
  class CircuitBreaker {
    const failureThreshold: int
    const resetTimeout: int
    var consecutiveFailures: int
    var state: CircuitState
    var openedAt: int
    var probeInFlight: bool
    ghost var history: seq<Event>

    ghost function Settings(): Config { Config(failureThreshold, resetTimeout) }

    ghost function Snapshot(): Fields
      reads this
    {
      Fields(consecutiveFailures, state, openedAt, probeInFlight)
    }

    ghost predicate Valid()
      reads this
    {
      Snapshot() == Replay(Settings(), history)
    }

    constructor (failureThreshold: int, resetTimeout: int)
      ensures Valid() && history == [] && Settings() == Config(failureThreshold, resetTimeout)
    {
      this.failureThreshold, this.resetTimeout := failureThreshold, resetTimeout;
      consecutiveFailures, state, openedAt, probeInFlight := 0, Closed, 0, false;
      history := [];
    }

    method State(now: int) returns (s: CircuitState)
      requires Valid()
      ensures s == VisibleState(Settings(), history, now)
    {
      FieldsAreHistory(Settings(), history);
      if state == Open && now - openedAt >= resetTimeout {
        return HalfOpen;
      }
      return state;
    }

    method AllowRequest(now: int) returns (ok: bool)
      requires Valid()
      modifies this
      ensures Valid() && history == old(history) + [Allow(now)]
      ensures ok <==> AdmittedAfter(Settings(), old(history), now)
    {
      VisibleStateIsHistory(Settings(), history, now);
      var s := State(now);
      if s == Closed {
        ok := true;
      } else if s == Open {
        ok := false;
      } else if probeInFlight {
        ok := false;
      } else {
        probeInFlight := true;
        ok := true;
      }
      history := history + [Allow(now)];
    }

    method RecordSuccess()
      requires Valid()
      modifies this
      ensures Valid() && history == old(history) + [Success]
    {
      consecutiveFailures := 0;
      state := Closed;
      probeInFlight := false;
      history := history + [Success];
    }

    method RecordFailure(now: int)
      requires Valid()
      modifies this
      ensures Valid() && history == old(history) + [Failure(now)]
    {
      consecutiveFailures := consecutiveFailures + 1;
      if consecutiveFailures >= failureThreshold {
        state := Open;
        openedAt := now;
        probeInFlight := false;
      }
      history := history + [Failure(now)];
    }
  }
}
