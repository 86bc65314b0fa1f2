/** The redemption of JwtService.dfy carried out through the breaker and the retry loop. */
module GuardedCalls {
  import opened Common
  import opened RedisStore
  import opened JwtServices
  import B = CircuitBreakers
  import R = Retries
  import G = Resilience

  /** One run of the script: it does not reach the store, its reply does not come back, or it does. */
  datatype Attempt = NotRun | ReplyLost | Replied

  /** What comes back in place of a reply; `isRedisRetryable` accepts all of these. */
  datatype CallFailure = Unavailable | Broken | Cancelled

  /** How many of the first `n` attempts executed the script. */
  function Executed(attempts: nat -> Attempt, n: nat): nat {
    if n == 0 then 0 else Executed(attempts, n - 1) + if attempts(n - 1).NotRun? then 0 else 1
  }

  lemma {:induction false} ExecutedAtMost(attempts: nat -> Attempt, n: nat)
    ensures Executed(attempts, n) <= n
  {
    if n > 0 { ExecutedAtMost(attempts, n - 1); }
  }

  /** The store after the first `n` attempts. */
  function StoreAfter(r: Redis, token: string, attempts: nat -> Attempt, n: nat): Redis {
    if n == 0 then r
    else
      var before := StoreAfter(r, token, attempts, n - 1);
      if attempts(n - 1).NotRun? then before else RedeemTx(before, token)
  }

  /** The operation handed to the retry loop: the reply of attempt `i`, on the store the earlier ones left. */
  function Operation(r: Redis, token: string, attempts: nat -> Attempt): nat -> R.Reply<Reply, CallFailure> {
    (i: nat) =>
      if attempts(i).Replied? then R.Reply(RedeemReply(StoreAfter(r, token, attempts, i), token), None)
      else R.Reply(Invalid, Some(Broken))
  }

  /** What the store and the script's next answer depend on is only whether an attempt executed. */
  lemma {:induction false} StoreIsConsumed(r: Redis, token: string, attempts: nat -> Attempt, n: nat)
    ensures StoreAfter(r, token, attempts, n) == if Executed(attempts, n) == 0 then r else RedeemTx(r, token)
  {
    if n > 0 {
      StoreIsConsumed(r, token, attempts, n - 1);
      RedeemAgain(r, token);
    }
  }

  /** The guarded call as `JwtService.dfy` sees it, after `calls` attempts of which the last was answered or not. */
  function CallOf(attempts: nat -> Attempt, calls: nat): Call {
    if calls == 0 then Rejected
    else if attempts(calls - 1).Replied? then Answered(Executed(attempts, calls - 1))
    else Unanswered(Executed(attempts, calls))
  }

  /** The error mapping of `RedeemRefreshToken`. */
  function ResultOf(reply: R.Reply<Reply, CallFailure>): Result<Redemption> {
    match reply.err
    case None => ReadReply(reply.value)
    case Some(Unavailable) => Failure(ErrServiceUnavailable)
    case Some(_) => Failure(ErrInternal)
  }

  lemma LastReply(r: Redis, token: string, attempts: nat -> Attempt, calls: nat)
    requires calls > 0 && attempts(calls - 1).Replied?
    ensures ReadReply(RedeemReply(StoreAfter(r, token, attempts, calls - 1), token))
      == RedeemResult(r, token, CallOf(attempts, calls))
  {
    StoreIsConsumed(r, token, attempts, calls - 1);
    RedeemAgain(r, token);
  }

  /**
   * A redemption through breaker and retry loop, for every fate of every attempt and every cancellation: it is a call
   * in the sense of `JwtService.dfy`, with at most as many executions as the policy allows attempts; the caller's
   * result and the store are those of that call.
   */
  method RedeemGuarded(breaker: B.CircuitBreaker, p: R.RetryPolicy, r: Redis, token: string, attempts: nat -> Attempt,
      cancelled: nat -> bool, before: int, others: seq<B.Event>, after: int)
    returns (result: Result<Redemption>, ghost call: Call, ghost store: Redis)
    requires breaker.Valid() && Fits64(p.initialBackoff)
    modifies breaker
    ensures breaker.Valid()
    ensures result == RedeemResult(r, token, call) && store == Consumed(r, token, call)
    ensures Executions(call) <= Max(1, p.maxAttempts)
    ensures call.Rejected? <==> !B.AdmittedAfter(breaker.Settings(), old(breaker.history), before)
  {
    var reply, calls := G.CallWithResilience(breaker, p, _ => true, Operation(r, token, attempts), cancelled, Invalid,
      Cancelled, Unavailable, before, others, after);
    result := ResultOf(reply);
    call, store := CallOf(attempts, calls), StoreAfter(r, token, attempts, calls);
    StoreIsConsumed(r, token, attempts, calls);
    if calls > 0 {
      CallsAreFew(p, r, token, attempts, cancelled, calls);
      ExecutedAtMost(attempts, calls);
      if attempts(calls - 1).Replied? {
        LastReply(r, token, attempts, calls);
      }
    }
  }

  lemma CallsAreFew(p: R.RetryPolicy, r: Redis, token: string, attempts: nat -> Attempt, cancelled: nat -> bool,
      calls: nat)
    requires calls > 0 && R.FirstStop(p, _ => true, Operation(r, token, attempts), cancelled, calls - 1)
    ensures calls <= Max(1, p.maxAttempts)
  {
    var m: nat := Max(1, p.maxAttempts) - 1;
    assert R.Stops(p, _ => true, Operation(r, token, attempts), cancelled, m);
  }
}
