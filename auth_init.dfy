/**
 * The startup gate of the auth service (`initServices`): up to five attempts,
 * each checking Postgres, Redis and RabbitMQ in that order, with a 5000 ms wait
 * after every failed attempt; the service starts only after an attempt in which
 * all three checks pass, and startup fails once the attempts run out.
 */
module AuthInit {
  import opened Wrappers
  import opened Stores

  const MaxRetries: nat := 5
  const RetryDelayMs: nat := 5000

  /** What the three dependencies answer on one attempt: whether `SELECT 1` came
      back with an error, the Redis ping reply, and whether a fresh RabbitMQ
      connection could be opened and closed. */
  datatype Attempt = Attempt(dbError: bool, ping: PingReply, brokerReachable: bool)

  /** One observable step of the loop: a dependency check, or the warning logged
      with the retries left followed by the wait before the next attempt. */
  datatype Step = CheckPostgres | CheckRedis | CheckRabbitMQ | Retry(retriesLeft: nat, waitMs: nat)

  /** How `initServices` ends: it returns after the successful attempt (numbered
      from 0), or throws "Services failed to initialize". */
  datatype Outcome = Ready(attempt: nat) | Fatal

  /** `checkRedisConnection`: the ping callback fails the check when it got an
      error or any result other than "PONG". */
  function CheckRedisConnection(reply: PingReply): (ready: bool)
    ensures ready <==> reply == PingReply(None, Some("PONG"))
  {
    !(reply.err.Some? || reply.result != Some("PONG"))
  }

  /** An attempt succeeds when all three checks pass. */
  predicate AllReady(a: Attempt)
  {
    !a.dbError && CheckRedisConnection(a.ping) && a.brokerReachable
  }

  /** The three checks every attempt runs, in order. */
  const Checks: seq<Step> := [CheckPostgres, CheckRedis, CheckRabbitMQ]

  /** Reference definition of the loop from attempt `attempt` with `retries` left:
      how it ends and the steps it takes. */
  function Run(probe: nat -> Attempt, attempt: nat, retries: nat): (r: (Outcome, seq<Step>))
    ensures r.0.Ready? ==> attempt <= r.0.attempt < attempt + retries
    decreases retries
  {
    if retries == 0 then (Fatal, [])
    else if AllReady(probe(attempt)) then (Ready(attempt), Checks)
    else
      var rest := Run(probe, attempt + 1, retries - 1);
      (rest.0, Checks + [Retry(retries, RetryDelayMs)] + rest.1)
  }

  /** The loop returns exactly when some attempt among the `retries` it makes has all
      checks passing, and then it returns at the first such attempt. */
  lemma {:induction false} RunReadyIff(probe: nat -> Attempt, attempt: nat, retries: nat)
    ensures Run(probe, attempt, retries).0.Ready? <==>
            exists i :: attempt <= i < attempt + retries && AllReady(probe(i))
    ensures Run(probe, attempt, retries).0.Ready? ==>
            var k := Run(probe, attempt, retries).0.attempt;
            attempt <= k < attempt + retries && AllReady(probe(k)) &&
            forall j :: attempt <= j < k ==> !AllReady(probe(j))
    decreases retries
  {
    if retries > 0 && !AllReady(probe(attempt)) {
      RunReadyIff(probe, attempt + 1, retries - 1);
      if exists i :: attempt <= i < attempt + retries && AllReady(probe(i)) {
        var i :| attempt <= i < attempt + retries && AllReady(probe(i));
        assert attempt + 1 <= i;
      }
    }
  }

  /** The number of failed attempts in a run: the attempts before the successful
      one, or all of them. */
  function Failures(o: Outcome, attempt: nat, retries: nat): nat
  {
    if o.Ready? && attempt <= o.attempt then o.attempt - attempt else retries
  }

  /** Every attempt occupies four steps (three checks, then the retry) when it fails
      and three when it succeeds: attempt k starts at step 4k with Postgres, Redis,
      RabbitMQ in that order, and a failed attempt k waits 5000 ms with the retries
      counter at `retries - k`, so the counter drops by exactly one per failure. */
  lemma {:induction false} RunSteps(probe: nat -> Attempt, attempt: nat, retries: nat, k: nat)
    requires k < Failures(Run(probe, attempt, retries).0, attempt, retries)
    ensures var t := Run(probe, attempt, retries).1;
            4 * k + 4 <= |t| && t[4 * k .. 4 * k + 4] == Checks + [Retry(retries - k, RetryDelayMs)]
    decreases retries
  {
    RunReadyIff(probe, attempt, retries);
    var rest := Run(probe, attempt + 1, retries - 1);
    assert Run(probe, attempt, retries).1 == Checks + [Retry(retries, RetryDelayMs)] + rest.1;
    if k > 0 {
      RunSteps(probe, attempt + 1, retries - 1, k - 1);
    }
  }

  /** The run makes one retry, and so one 5000 ms wait, per failed attempt, the
      fifth failure included; its length fixes how many attempts it made. */
  lemma {:induction false} RunLength(probe: nat -> Attempt, attempt: nat, retries: nat)
    ensures var (o, t) := Run(probe, attempt, retries);
            |t| == 4 * Failures(o, attempt, retries) + (if o.Ready? then 3 else 0)
    ensures var (o, t) := Run(probe, attempt, retries);
            o.Ready? ==> t[|t| - 3..] == Checks
    decreases retries
  {
    RunReadyIff(probe, attempt, retries);
    if retries > 0 && !AllReady(probe(attempt)) {
      RunLength(probe, attempt + 1, retries - 1);
      RunReadyIff(probe, attempt + 1, retries - 1);
    }
  }

  /** `initServices`, with the dependency answers on attempt i given by `probe(i)`.
      It returns the way it ends, the steps it took and the final `retries`. */
  method InitServices(probe: nat -> Attempt) returns (outcome: Outcome, steps: seq<Step>, retries: nat)
    ensures (outcome, steps) == Run(probe, 0, MaxRetries)
    ensures outcome.Ready? <==> exists i :: 0 <= i < MaxRetries && AllReady(probe(i))
    ensures outcome.Ready? ==> AllReady(probe(outcome.attempt)) &&
                               forall j :: 0 <= j < outcome.attempt ==> !AllReady(probe(j))
    ensures retries == MaxRetries - Failures(outcome, 0, MaxRetries)
    ensures outcome.Fatal? ==> retries == 0
    ensures |steps| == 4 * Failures(outcome, 0, MaxRetries) + (if outcome.Ready? then 3 else 0)
    ensures forall k :: 0 <= k < Failures(outcome, 0, MaxRetries) ==>
              steps[4 * k .. 4 * k + 4] == Checks + [Retry(MaxRetries - k, RetryDelayMs)]
    ensures outcome.Ready? ==> steps[|steps| - 3..] == Checks
    ensures outcome.Ready? ==> probe(outcome.attempt).ping == PingReply(None, Some("PONG"))
    ensures (forall i :: 0 <= i < MaxRetries ==> probe(i).ping != PingReply(None, Some("PONG"))) ==> outcome.Fatal?
  {
    retries := MaxRetries;
    var attempt := 0;
    steps := [];
    ghost var run := Run(probe, 0, MaxRetries);
    assert run.1 == steps + run.1;
    while retries > 0
      invariant attempt + retries == MaxRetries
      invariant run.0 == Run(probe, attempt, retries).0
      invariant run.1 == steps + Run(probe, attempt, retries).1
      decreases retries
    {
      ghost var before := steps;
      RunUnfold(probe, attempt, retries);
      var a := probe(attempt);
      var dbReady := !a.dbError;
      steps := steps + [CheckPostgres];
      var cacheReady := CheckRedisConnection(a.ping);
      steps := steps + [CheckRedis];
      var rabbitMQReady := a.brokerReachable;
      steps := steps + [CheckRabbitMQ];
      assert steps == before + Checks;
      if dbReady && cacheReady && rabbitMQReady {
        outcome := Ready(attempt);
        TraceFacts(probe, outcome, steps);
        return;
      }
      steps := steps + [Retry(retries, RetryDelayMs)];
      ghost var rest := Run(probe, attempt + 1, retries - 1).1;
      Regroup(before, Checks, [Retry(retries, RetryDelayMs)]);
      Regroup(before, Checks + [Retry(retries, RetryDelayMs)], rest);
      retries := retries - 1;
      attempt := attempt + 1;
    }
    outcome := Fatal;
    assert steps + [] == steps;
    TraceFacts(probe, outcome, steps);
  }

  lemma Regroup(a: seq<Step>, b: seq<Step>, c: seq<Step>)
    ensures a + (b + c) == (a + b) + c
  {
  }

  /** One turn of the loop, as `Run` describes it. */
  lemma RunUnfold(probe: nat -> Attempt, attempt: nat, retries: nat)
    requires retries > 0
    ensures AllReady(probe(attempt)) ==> Run(probe, attempt, retries) == (Ready(attempt), Checks)
    ensures !AllReady(probe(attempt)) ==>
              Run(probe, attempt, retries).0 == Run(probe, attempt + 1, retries - 1).0 &&
              Run(probe, attempt, retries).1 == Checks + [Retry(retries, RetryDelayMs)] + Run(probe, attempt + 1, retries - 1).1
  {
  }

  lemma TraceFacts(probe: nat -> Attempt, outcome: Outcome, steps: seq<Step>)
    requires (outcome, steps) == Run(probe, 0, MaxRetries)
    ensures outcome.Ready? <==> exists i :: 0 <= i < MaxRetries && AllReady(probe(i))
    ensures outcome.Ready? ==> AllReady(probe(outcome.attempt)) &&
                               forall j :: 0 <= j < outcome.attempt ==> !AllReady(probe(j))
    ensures |steps| == 4 * Failures(outcome, 0, MaxRetries) + (if outcome.Ready? then 3 else 0)
    ensures forall k :: 0 <= k < Failures(outcome, 0, MaxRetries) ==>
              steps[4 * k .. 4 * k + 4] == Checks + [Retry(MaxRetries - k, RetryDelayMs)]
    ensures outcome.Ready? ==> steps[|steps| - 3..] == Checks
  {
    RunReadyIff(probe, 0, MaxRetries);
    RunLength(probe, 0, MaxRetries);
    forall k | 0 <= k < Failures(outcome, 0, MaxRetries)
      ensures steps[4 * k .. 4 * k + 4] == Checks + [Retry(MaxRetries - k, RetryDelayMs)]
    {
      RunSteps(probe, 0, MaxRetries, k);
    }
  }
}
