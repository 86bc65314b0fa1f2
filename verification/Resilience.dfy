/** Breaker and retry combined, internal/infrastructure/resilience/resilience.go. */
module Resilience {
  import opened Common
  import opened CircuitBreakers
  import opened Retries

  /** What other callers do to the breaker while the operation runs. */
  method LetOthers(breaker: CircuitBreaker, others: seq<Event>)
    requires breaker.Valid()
    modifies breaker
    ensures breaker.Valid() && breaker.history == old(breaker.history) + others
  {
    for i := 0 to |others|
      invariant breaker.Valid() && breaker.history == old(breaker.history) + others[..i]
    {
      match others[i] {
        case Allow(at) =>
          var ok := breaker.AllowRequest(at);
        case Success => breaker.RecordSuccess();
        case Failure(at) => breaker.RecordFailure(at);
      }
      assert others[..i + 1] == others[..i] + [others[i]];
    }
    assert others[..|others|] == others;
  }

  /**
   * `before` and `after` are the clock readings of the admission and of the record, `others` what other callers do to
   * the breaker in between. A rejected call does not touch the dependency; an admitted one adds the record of its last
   * reply only, so failures that a retry hides count as one success, and an error that is not retryable leaves no
   * record at all.
   */
  method CallWithResilience<T, E>(breaker: CircuitBreaker, p: RetryPolicy, isRetryable: E -> bool,
      op: nat -> Reply<T, E>, cancelled: nat -> bool, zero: T, ctxErr: E, unavailable: E, before: int,
      others: seq<Event>, after: int)
    returns (r: Reply<T, E>, calls: nat)
    requires breaker.Valid() && Fits64(p.initialBackoff)
    modifies breaker
    ensures breaker.Valid()
    ensures calls == 0 <==> !AdmittedAfter(breaker.Settings(), old(breaker.history), before)
    ensures calls == 0 ==>
      r == Reply(zero, Some(unavailable)) && breaker.history == old(breaker.history) + [Allow(before)]
    ensures calls > 0 ==> FirstStop(p, isRetryable, op, cancelled, calls - 1)
    ensures calls > 0 ==>
      r == if Decisive(p, isRetryable, op, calls - 1) then op(calls - 1) else Reply(zero, Some(ctxErr))
    ensures calls > 0 ==>
      breaker.history == old(breaker.history) + [Allow(before)] + others
        + if r.err.None? then [Success] else if isRetryable(r.err.value) then [Failure(after)] else []
    ensures calls > 0 && r.err.None? ==> forall now :: AdmittedAfter(breaker.Settings(), breaker.history, now)
    ensures var h := old(breaker.history) + [Allow(before)] + others;
      calls > 0 && r.err.Some? && isRetryable(r.err.value) && Streak(h) + 1 >= breaker.failureThreshold ==>
        forall now :: AdmittedAfter(breaker.Settings(), breaker.history, now) <==> now >= after + breaker.resetTimeout
  {
    var ok := breaker.AllowRequest(before);
    if !ok {
      return Reply(zero, Some(unavailable)), 0;
    }
    var slept;
    r, calls, slept := RetryWithBackoff(p, isRetryable, op, cancelled, zero, ctxErr);
    LetOthers(breaker, others);
    ghost var h := breaker.history;
    forall now { RecordDecides(breaker.Settings(), h, after, now); }
    if r.err == None {
      breaker.RecordSuccess();
    } else if isRetryable(r.err.value) {
      breaker.RecordFailure(after);
    }
  }

  /**
   * The effect of one batch on the failure streak, over whole histories: admission changes nothing; the end, after
   * whatever others did meanwhile, sets it to zero if the batch ends well, however many attempts that took, raises it
   * by exactly one for a retryable error, and leaves it alone for any other.
   */
  lemma BatchCountsOnce<T, E>(h: seq<Event>, isRetryable: E -> bool, r: Reply<T, E>, before: int,
      others: seq<Event>, after: int)
    ensures Streak(h + [Allow(before)]) == Streak(h)
    ensures var h1 := h + [Allow(before)] + others;
      Streak(h1 + if r.err.None? then [Success] else if isRetryable(r.err.value) then [Failure(after)] else [])
        == if r.err.None? then 0 else if isRetryable(r.err.value) then Streak(h1) + 1 else Streak(h1)
  {
    var h0, h1 := h + [Allow(before)], h + [Allow(before)] + others;
    var rec := if r.err.None? then [Success] else if isRetryable(r.err.value) then [Failure(after)] else [];
    assert h0[..|h|] == h && h0[|h|] == Allow(before);
    if rec != [] {
      assert (h1 + rec)[..|h1|] == h1 && (h1 + rec)[|h1|] == rec[0];
    } else {
      assert h1 + rec == h1;
    }
  }

  /**
   * A new breaker with threshold 1 and a timeout of 60: a call fails between 1000 and 1001, a request at 1002 is turned
   * away, and one at 1061 is let through as the probe.
   */
  method OpensForOneTimeout() returns (during: bool, probe: bool)
    ensures !during && probe
  {
    var breaker := new CircuitBreaker(1, 60);
    var p := NewRetryPolicy(1, 0, 1);
    var failing := (i: nat) => Reply(0, Some(false));
    var r, calls := CallWithResilience(breaker, p, _ => true, failing, _ => false, 0, false, false, 1000, [], 1001);
    assert Stops(p, _ => true, failing, _ => false, 0);
    ghost var h := breaker.history;
    assert AdmittedAfter(breaker.Settings(), h, 1061) && !AdmittedAfter(breaker.Settings(), h, 1002);
    during := breaker.AllowRequest(1002);
    StillAdmits(breaker.Settings(), h, 1002, 1061);
    probe := breaker.AllowRequest(1061);
  }

  /** A request turned away by an open breaker changes no later answer. */
  lemma StillAdmits(c: Config, h: seq<Event>, at: int, now: int)
    requires VisibleState(c, h, at) == Open
    ensures AdmittedAfter(c, h + [Allow(at)], now) <==> AdmittedAfter(c, h, now)
  {
    var h' := h + [Allow(at)];
    assert h'[..|h|] == h && h'[|h|] == Allow(at);
    ProbeStep(c, h, Allow(at));
  }
}
