/** Retrying the processing of one message, and what happens to its offset afterwards. */
module Retry {
  import opened Prelude
  import opened Offsets

  /** `1 + fraction` times the delay. */
  function Stretched(delay: real, fraction: real): real {
    delay + delay * fraction
  }

  lemma {:induction false} StretchedGrows(delay: real, f: real, g: real)
    requires delay >= 0.0 && f <= g
    ensures Stretched(delay, f) <= Stretched(delay, g)
  {
  }

  lemma {:induction false} Scaled(a: real, b: real, c: real)
    requires a <= b && c >= 0.0
    ensures a * c <= b * c
  {
  }

  datatype Config = Config(maxRetries: int, factor: int, maxBackoff: real, baseDelay: real, jitter: real) {
    predicate Valid() {
      factor >= 0 && maxBackoff >= 0.0 && baseDelay >= 0.0 && jitter >= 0.0
    }

    /** The delay before retry `a`, without jitter: linear in `a` up to a cap. */
    function Backoff(a: nat): real {
      var delay := (factor * a) as real * baseDelay;
      if delay <= maxBackoff then delay else maxBackoff
    }

    /**
     The delay after the failed attempt number `attempt`, counted from zero; `draw` is the random
     fraction added to it, the jitter factor times a random number.
     */
    function Delay(attempt: nat, draw: real): (d: real)
      requires Valid() && 0.0 <= draw <= jitter
      ensures Backoff(attempt + 1) <= d <= Stretched(Backoff(attempt + 1), jitter)
      ensures draw == 0.0 ==> d == Backoff(attempt + 1)
      ensures draw == jitter ==> d == Stretched(Backoff(attempt + 1), jitter)
    {
      BackoffNotNegative(attempt + 1);
      StretchedGrows(Backoff(attempt + 1), 0.0, draw);
      StretchedGrows(Backoff(attempt + 1), draw, jitter);
      Stretched(Backoff(attempt + 1), draw)
    }

    lemma {:induction false} BackoffNotNegative(a: nat)
      requires Valid()
      ensures Backoff(a) >= 0.0
    {
      assert factor * a >= 0;
    }

    /** The smaller of the linear delay and the cap, and never shorter for a later retry. */
    lemma {:induction false} BackoffIs(a: nat)
      requires Valid()
      ensures Backoff(a) <= maxBackoff && Backoff(a) <= (factor * a) as real * baseDelay
      ensures Backoff(a) == maxBackoff || Backoff(a) == (factor * a) as real * baseDelay
      ensures Backoff(a) <= Backoff(a + 1)
    {
      assert factor * a <= factor * (a + 1);
      Scaled((factor * a) as real, (factor * (a + 1)) as real, baseDelay);
    }

    predicate Exceeded(attempt: nat) {
      0 <= maxRetries <= attempt
    }
  }

  const DEFAULT := Config(10, 5, 30.0, 0.3, 0.1)

  /** With the default configuration the cap is reached at the twentieth retry, not at the tenth. */
  lemma {:induction false} DefaultCap(a: nat)
    ensures DEFAULT.Backoff(a) == DEFAULT.maxBackoff <==> a >= 20
  {
  }

  /** How one call of the operation ends; the error handler refuses to retry a `Permanent` failure. */
  datatype Outcome = Success | Transient | Permanent

  datatype Verdict = Returned | Refused | Exhausted | Interrupted

  /** The attempts, the shutdown signal after each of them, and the random draws. */
  datatype World = World(outcome: nat -> Outcome, shutdown: nat -> bool, draw: nat -> real)

  ghost predicate FairDraws(w: World, jitter: real) {
    forall k: nat :: 0.0 <= w.draw(k) <= jitter
  }

  /** Attempt `k` is the last one, if it is reached. */
  predicate Stops(c: Config, w: World, k: nat) {
    !w.outcome(k).Transient? || c.Exceeded(k) || w.shutdown(k)
  }

  function VerdictAt(c: Config, w: World, k: nat): Verdict {
    if w.outcome(k).Success? then Returned
    else if w.outcome(k).Permanent? then Refused
    else if c.Exceeded(k) then Exhausted
    else Interrupted
  }

  /** The waits before retries 1 to `n`, without jitter. */
  function TotalBackoff(c: Config, n: nat): real {
    if n == 0 then 0.0 else TotalBackoff(c, n - 1) + c.Backoff(n)
  }

  /** The waits before retries 1 to `n`, with the largest possible jitter. */
  function WorstWait(c: Config, n: nat): real {
    if n == 0 then 0.0 else WorstWait(c, n - 1) + Stretched(c.Backoff(n), c.jitter)
  }

  lemma {:induction false} StretchedSum(a: real, b: real, jitter: real)
    ensures Stretched(a + b, jitter) == Stretched(a, jitter) + Stretched(b, jitter)
  {
  }

  /** The jitter can stretch the whole wait by its factor and no more. */
  lemma {:induction false} WorstWaitIsStretched(c: Config, n: nat)
    ensures WorstWait(c, n) == Stretched(TotalBackoff(c, n), c.jitter)
  {
    if n > 0 {
      WorstWaitIsStretched(c, n - 1);
      StretchedSum(TotalBackoff(c, n - 1), c.Backoff(n), c.jitter);
    }
  }

  lemma {:induction false} WorstWaitGrows(c: Config, k: nat, n: nat)
    requires c.Valid() && k <= n
    ensures WorstWait(c, k) <= WorstWait(c, n)
  {
    if k < n {
      WorstWaitGrows(c, k, n - 1);
      c.BackoffNotNegative(n);
      StretchedGrows(c.Backoff(n), 0.0, c.jitter);
    }
  }

  /** The first attempt that stops the loop, and what that means. */
  lemma {:induction false} FirstStop(c: Config, w: World, k: nat)
    requires Stops(c, w, k) && forall j: nat :: j < k ==> !Stops(c, w, j)
    ensures forall j: nat :: j < k ==> w.outcome(j).Transient? && !w.shutdown(j)
    ensures c.maxRetries >= 0 ==> k <= c.maxRetries
    ensures VerdictAt(c, w, k).Returned? <==> w.outcome(k).Success?
    ensures VerdictAt(c, w, k).Refused? <==> w.outcome(k).Permanent?
    ensures VerdictAt(c, w, k).Exhausted? <==> w.outcome(k).Transient? && k == c.maxRetries
    ensures VerdictAt(c, w, k).Interrupted? <==> w.outcome(k).Transient? && w.shutdown(k) && k != c.maxRetries
  {
    assert k > 0 ==> !Stops(c, w, k - 1);
    forall j: nat | j < k ensures w.outcome(j).Transient? && !w.shutdown(j) {
      assert !Stops(c, w, j);
    }
  }

  class RetryHelper {
    const config: Config

    constructor (config: Config)
      ensures this.config == config
    {
      this.config := config;
    }

    /**
     Calls the operation until an attempt stops the loop; the number of calls and the verdict are those
     of the first such attempt. With unlimited retries, `horizon` is some attempt that would stop it.
     */
    method Run(w: World, ghost horizon: nat) returns (verdict: Verdict, calls: nat, waited: real)
      requires config.Valid() && FairDraws(w, config.jitter)
      requires config.maxRetries < 0 ==> Stops(config, w, horizon)
      ensures calls > 0 && Stops(config, w, calls - 1)
      ensures forall j: nat :: j < calls - 1 ==> !Stops(config, w, j)
      ensures verdict == VerdictAt(config, w, calls - 1)
      ensures !verdict.Interrupted? ==> waited <= WorstWait(config, calls - 1)
      ensures config.maxRetries >= 0 ==>
        calls <= config.maxRetries + 1 && waited <= WorstWait(config, config.maxRetries)
      ensures TotalBackoff(config, calls - 1) <= waited
    {
      ghost var limit := if config.maxRetries >= 0 then config.maxRetries else horizon;
      var attempt := 0;
      waited := 0.0;
      while true
        invariant 0 <= attempt <= limit
        invariant forall j: nat :: j < attempt ==> !Stops(config, w, j)
        invariant TotalBackoff(config, attempt) <= waited <= WorstWait(config, attempt)
        decreases limit - attempt
      {
        WorstWaitGrows(config, attempt, limit);
        if !w.outcome(attempt).Transient? || config.Exceeded(attempt) {
          return VerdictAt(config, w, attempt), attempt + 1, waited;
        }
        waited := waited + config.Delay(attempt, w.draw(attempt));
        if w.shutdown(attempt) {
          config.BackoffNotNegative(attempt + 1);
          if config.maxRetries >= 0 {
            WorstWaitGrows(config, attempt + 1, limit);
          }
          return Interrupted, attempt + 1, waited;
        }
        attempt := attempt + 1;
      }
    }
  }

  datatype LoopAction = Continue | Break | Raise

  /** The consumer's handling of one message, and of its offsets when it stops. */
  class MessageHandler {
    var paused: bool
    const retry: RetryHelper
    const offsets: OffsetManager

    constructor (retry: RetryHelper, offsets: OffsetManager)
      ensures this.retry == retry && this.offsets == offsets && !paused
    {
      this.retry := retry;
      this.offsets := offsets;
      paused := false;
    }

    /**
     An offset is stored, and possibly committed, exactly when the last call of the operation succeeded.
     A shutdown ends the loop; everything else stops the consumer, and exhausted retries also mark it.
     */
    method ProcessAndCommit(w: World, ghost horizon: nat, broker: Broker, tp: Partition, offset: nat, answer: Answer)
      returns (action: LoopAction, calls: nat)
      requires retry.config.Valid() && FairDraws(w, retry.config.jitter)
      requires retry.config.maxRetries < 0 ==> Stops(retry.config, w, horizon)
      requires offsets.stored.Keys <= {tp} && broker.committed.Keys == {tp}
      modifies this, offsets, broker
      ensures calls > 0 && Stops(retry.config, w, calls - 1)
      ensures retry.config.maxRetries >= 0 ==> calls <= retry.config.maxRetries + 1
      ensures action.Continue? <==> w.outcome(calls - 1).Success?
      ensures action.Continue? ==>
        && offsets.stored ==
           (if offsets.ShouldCommit(offset) && answer.Ok? then map[] else map[tp := Entry(offset, None)])
        && broker.committed ==
           (if offsets.ShouldCommit(offset) && answer != Error(false) then map[tp := offset + 1]
            else old(broker.committed))
      ensures !action.Continue? ==> offsets.stored == old(offsets.stored) && broker.committed == old(broker.committed)
      ensures action.Break? <==> VerdictAt(retry.config, w, calls - 1).Interrupted?
      ensures paused == (old(paused) || VerdictAt(retry.config, w, calls - 1).Exhausted?)
    {
      var verdict, n, _ := retry.Run(w, horizon);
      calls := n;
      match verdict {
        case Returned =>
          FinishMessage(offsets, broker, tp, offset, answer);
          action := Continue;
        case Interrupted => action := Break;
        case Exhausted =>
          paused := true;
          action := Raise;
        case Refused => action := Raise;
      }
    }
  }
}
