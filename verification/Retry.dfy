/** The two retry loops: the router's, bounded by a deadline, and the transport's, bounded by a count. */
module Retry {
  import opened Common

  datatype Reply<T> = Success(value: T) | Failure(code: Code)

  // ---- The router's loop ----

  type Time = t: real | t >= 0.0

  datatype Options = Options(baseDelay: Time, factor: Time, maxRetries: Option<int>, deadline: Option<real>)

  /** One call: its reply, how long it took, whether the client was closed by then, and by how much a
      following sleep overshoots. */
  datatype Call<T> = Call(reply: Reply<T>, elapsed: Time, closed: bool, late: Time)

  datatype Sleep = Sleep(start: real, length: real)

  predicate IsTransient(code: Code) {
    code in {DeadlineExceeded, Unavailable, Cancelled, Internal, Unknown}
  }

  predicate RetriedByRouter<T>(c: Call<T>) {
    c.reply.Failure? && IsTransient(c.reply.code) && !(c.closed && c.reply.code == Cancelled)
  }

  function RealPower(f: real, k: nat): real {
    if k == 0 then 1.0 else RealPower(f, k - 1) * f
  }

  /** The length of the first `k` sleeps together. */
  function Backoffs(base: real, f: real, k: nat): real {
    if k == 0 then 0.0 else Backoffs(base, f, k - 1) + base * RealPower(f, k - 1)
  }

  /** When the loop is back at its top after `k` sleeps. */
  function WakeTime<T>(script: seq<Call<T>>, sleeps: seq<Sleep>, k: nat): real
    requires k <= |script| && k <= |sleeps|
  {
    if k == 0 then 0.0 else sleeps[k - 1].start + sleeps[k - 1].length + script[k - 1].late
  }

  ghost predicate GoodSleep<T>(opts: Options, script: seq<Call<T>>, sleeps: seq<Sleep>, k: nat)
    requires k < |sleeps| && k < |script|
  {
    && sleeps[k].start == WakeTime(script, sleeps, k) + script[k].elapsed
    && sleeps[k].length == opts.baseDelay * RealPower(opts.factor, k)
    && Backoffs(opts.baseDelay, opts.factor, k) <= sleeps[k].start
    && (opts.deadline.Some? ==> sleeps[k].start + sleeps[k].length < opts.deadline.value)
  }

  ghost predicate GoodSleeps<T>(opts: Options, script: seq<Call<T>>, sleeps: seq<Sleep>) {
    |sleeps| <= |script| && forall k :: 0 <= k < |sleeps| ==> GoodSleep(opts, script, sleeps, k)
  }

  /** Sleeps grow geometrically and none is begun that would reach the deadline; the number of calls is
      bounded by `maxRetries`; and every error but the last call's was transient. */
  method CallWithRetries<T>(opts: Options, script: seq<Call<T>>)
    returns (r: Progress<T>, calls: nat, sleeps: seq<Sleep>)
    ensures calls <= |script| && |sleeps| <= calls <= |sleeps| + 1
    ensures GoodSleeps(opts, script, sleeps)
    ensures opts.maxRetries.Some? ==> calls <= Max(0, opts.maxRetries.value) + 1
    ensures forall j :: 0 <= j < |sleeps| ==> RetriedByRouter(script[j])
    ensures forall j :: 0 <= j < |sleeps| ==>
              && script[j].reply.Failure?
              && script[j].reply.code in {DeadlineExceeded, Unavailable, Cancelled, Internal, Unknown}
              && !(script[j].closed && script[j].reply.code == Cancelled)
    ensures r.Returned? && r.result.Ok? ==> calls == |sleeps| + 1 && script[calls - 1].reply == Success(r.result.value)
    ensures r == StillRunning ==> calls == |script| == |sleeps|
    ensures opts.deadline.Some? ==> forall j :: 0 <= j < calls ==> WakeTime(script, sleeps, j) < opts.deadline.value
    ensures r.Returned? && r.result.Err? ==>
              match r.result.error
              case Grpc(code) =>
                && calls == |sleeps| + 1 && script[calls - 1].reply == Failure(code)
                && !(script[calls - 1].closed && code == Cancelled)
                && (code !in {DeadlineExceeded, Unavailable, Cancelled, Internal, Unknown}
                    || (opts.maxRetries.Some? && opts.maxRetries.value <= |sleeps|))
              case ClientClosed =>
                calls == |sleeps| + 1 && script[calls - 1].closed && script[calls - 1].reply == Failure(Cancelled)
              case Other =>
                && opts.deadline.Some?
                && (calls == |sleeps| || RetriedByRouter(script[calls - 1]))
                && (calls == |sleeps| || opts.maxRetries.None? || |sleeps| < opts.maxRetries.value)
                && opts.deadline.value <= WakeTime(script, sleeps, |sleeps|)
                   + (if calls == |sleeps| then 0.0
                      else script[calls - 1].elapsed + opts.baseDelay * RealPower(opts.factor, |sleeps|))
              case _ => false
  {
    hide RealPower, Backoffs;
    sleeps, calls := [], 0;
    var delay := opts.baseDelay;
    var now: real := 0.0;
    assert RealPower(opts.factor, 0) == 1.0 && Backoffs(opts.baseDelay, opts.factor, 0) == 0.0 by { NoSleeps(opts); }
    while true
      invariant 0 <= calls == |sleeps| <= |script|
      invariant delay == opts.baseDelay * RealPower(opts.factor, calls)
      invariant delay >= 0.0 && Backoffs(opts.baseDelay, opts.factor, calls) <= now
      invariant GoodSleeps(opts, script, sleeps) && now == WakeTime(script, sleeps, calls)
      invariant forall j :: 0 <= j < calls ==> RetriedByRouter(script[j])
      invariant opts.maxRetries.Some? ==> calls <= Max(0, opts.maxRetries.value)
      invariant opts.deadline.Some? ==> forall j :: 0 <= j < calls ==> WakeTime(script, sleeps, j) < opts.deadline.value
      decreases |script| - calls
    {
      if opts.deadline.Some? && now >= opts.deadline.value {
        return Returned(Err(Other)), calls, sleeps;
      }
      if calls == |script| {
        return StillRunning, calls, sleeps;
      }
      var c := script[calls];
      var numRetries := calls;
      calls := calls + 1;
      now := now + c.elapsed;
      match c.reply {
        case Success(v) =>
          return Returned(Ok(v)), calls, sleeps;
        case Failure(code) =>
          if c.closed && code == Cancelled {
            return Returned(Err(ClientClosed)), calls, sleeps;
          }
          if !IsTransient(code) {
            return Returned(Err(Grpc(code))), calls, sleeps;
          }
          if opts.maxRetries.Some? && numRetries >= opts.maxRetries.value {
            return Returned(Err(Grpc(code))), calls, sleeps;
          }
          if opts.deadline.Some? && now + delay >= opts.deadline.value {
            return Returned(Err(Other)), calls, sleeps;
          }
          GoodSleepsKept(opts, script, sleeps, Sleep(now, delay));
          OneMoreSleep(opts, numRetries, delay);
          sleeps := sleeps + [Sleep(now, delay)];
          now := now + delay + c.late;
          delay := delay * opts.factor;
      }
    }
  }

  lemma {:induction false} NoSleeps(opts: Options)
    ensures RealPower(opts.factor, 0) == 1.0 && Backoffs(opts.baseDelay, opts.factor, 0) == 0.0
  {
  }

  lemma {:induction false} GoodSleepsKept<T>(opts: Options, script: seq<Call<T>>, sleeps: seq<Sleep>, next: Sleep)
    requires GoodSleeps(opts, script, sleeps)
    ensures forall k :: 0 <= k < |sleeps| ==> GoodSleep(opts, script, sleeps + [next], k)
    ensures forall k :: 0 <= k <= |sleeps| ==> WakeTime(script, sleeps + [next], k) == WakeTime(script, sleeps, k)
  {
    hide RealPower, Backoffs;
    forall k | 0 <= k < |sleeps| ensures GoodSleep(opts, script, sleeps + [next], k) {
      assert GoodSleep(opts, script, sleeps, k);
    }
  }

  lemma {:induction false} OneMoreSleep(opts: Options, k: nat, delay: real)
    requires delay == opts.baseDelay * RealPower(opts.factor, k) && delay >= 0.0
    ensures delay * opts.factor == opts.baseDelay * RealPower(opts.factor, k + 1)
    ensures delay * opts.factor >= 0.0
    ensures Backoffs(opts.baseDelay, opts.factor, k + 1) == Backoffs(opts.baseDelay, opts.factor, k) + delay
  {
    var p := RealPower(opts.factor, k);
    assert RealPower(opts.factor, k + 1) == p * opts.factor;
    Associates(opts.baseDelay, p, opts.factor);
    NonNegative(delay, opts.factor);
  }

  lemma {:induction false} Associates(a: real, b: real, c: real)
    ensures (a * b) * c == a * (b * c)
  {
  }

  lemma {:induction false} NonNegative(a: real, b: real)
    requires a >= 0.0 && b >= 0.0
    ensures a * b >= 0.0
  {
  }

  /** All sleeps together end before the deadline. */
  lemma {:induction false} SleepsFitDeadline<T>(opts: Options, script: seq<Call<T>>, sleeps: seq<Sleep>)
    requires opts.deadline.Some? && sleeps != [] && GoodSleeps(opts, script, sleeps)
    ensures Backoffs(opts.baseDelay, opts.factor, |sleeps|) < opts.deadline.value
  {
    assert GoodSleep(opts, script, sleeps, |sleeps| - 1);
  }

  /** With factor 2, `k` sleeps before a deadline `d` after the start mean base·(2^k − 1) < d. */
  lemma {:induction false} DoublingFitsDeadline<T>(opts: Options, script: seq<Call<T>>, sleeps: seq<Sleep>)
    requires opts.factor == 2.0 && opts.deadline.Some? && sleeps != [] && GoodSleeps(opts, script, sleeps)
    ensures opts.baseDelay * (RealPower(2.0, |sleeps|) - 1.0) < opts.deadline.value
  {
    SleepsFitDeadline(opts, script, sleeps);
    DoublingSum(opts.baseDelay, |sleeps|);
  }

  lemma {:induction false} DoublingSum(base: real, k: nat)
    ensures Backoffs(base, 2.0, k) == base * (RealPower(2.0, k) - 1.0)
  {
    if k == 0 {
    } else {
      DoublingSum(base, k - 1);
    }
  }

  // ---- The transport's loop ----

  datatype Config = Config(maxRetries: nat, baseDelay: nat, maxDelay: nat, backoffFactor: nat)

  /** What each attempt is told. */
  datatype Context = Context(attempt: nat, idempotencyKey: string)

  predicate IsRetryable(code: Code) { code in {DeadlineExceeded, Unavailable, Cancelled} }

  /** The `k`-th sleep, counting from 0: the first is the base delay uncapped, the others are capped. */
  function TransportDelay(config: Config, k: nat): nat {
    if k == 0 then config.baseDelay else Min(config.baseDelay * Power(config.backoffFactor, k), config.maxDelay)
  }

  /** Attempts are numbered from 0 under one idempotency key; the loop stops at the first reply that is
      no retryable error, or with the last error when the retries are used up; and it never runs out
      of its range. */
  method RetryCall<T>(config: Config, key: string, script: seq<Reply<T>>)
    returns (r: Result<T>, contexts: seq<Context>, sleeps: seq<nat>)
    requires |script| > config.maxRetries
    ensures 0 < |contexts| <= config.maxRetries + 1 && |sleeps| == |contexts| - 1
    ensures forall j :: 0 <= j < |contexts| ==> contexts[j] == Context(j, key)
    ensures forall j :: 0 <= j < |sleeps| ==>
              script[j].Failure? && script[j].code in {DeadlineExceeded, Unavailable, Cancelled}
    ensures match script[|contexts| - 1]
            case Success(v) => r == Ok(v)
            case Failure(code) =>
              && r == Err(Grpc(code))
              && (code !in {DeadlineExceeded, Unavailable, Cancelled} || |contexts| == config.maxRetries + 1)
    ensures |sleeps| > 0 ==> sleeps[0] == config.baseDelay
    ensures config.backoffFactor >= 1 ==>
              forall k :: 0 < k < |sleeps| ==>
                sleeps[k] == Min(config.baseDelay * Power(config.backoffFactor, k), config.maxDelay)
  {
    contexts, sleeps := [], [];
    var delay := config.baseDelay;
    for attempt := 0 to config.maxRetries + 1
      invariant attempt == |contexts| == |sleeps| <= config.maxRetries
      invariant forall j :: 0 <= j < attempt ==> contexts[j] == Context(j, key)
      invariant forall j :: 0 <= j < attempt ==> script[j].Failure? && IsRetryable(script[j].code)
      invariant config.backoffFactor >= 1 ==> delay == TransportDelay(config, attempt)
      invariant if attempt == 0 then delay == config.baseDelay else sleeps[0] == config.baseDelay
      invariant config.backoffFactor >= 1 ==> forall k :: 0 <= k < attempt ==> sleeps[k] == TransportDelay(config, k)
    {
      contexts := contexts + [Context(attempt, key)];
      match script[attempt] {
        case Success(v) =>
          return Ok(v), contexts, sleeps;
        case Failure(code) =>
          if IsRetryable(code) && attempt < config.maxRetries {
            sleeps := sleeps + [delay];
            if config.backoffFactor >= 1 { DelayGrows(config, attempt); }
            delay := Min(delay * config.backoffFactor, config.maxDelay);
          } else {
            return Err(Grpc(code)), contexts, sleeps;
          }
      }
    }
    assert false;
  }

  lemma {:induction false} DelayGrows(config: Config, k: nat)
    requires config.backoffFactor >= 1
    ensures TransportDelay(config, k + 1) == Min(TransportDelay(config, k) * config.backoffFactor, config.maxDelay)
  {
    var f, p := config.backoffFactor, Power(config.backoffFactor, k);
    var d := config.baseDelay * p;
    assert Power(f, k + 1) == p * f;
    assert config.baseDelay * (p * f) == d * f by { MulAssoc(config.baseDelay, p, f); }
    MulGrows(d, f);
    MulGrows(config.maxDelay, f);
    if k == 0 {
      assert p == 1 && d == config.baseDelay;
    }
  }

  lemma {:induction false} MulGrows(a: nat, f: nat)
    requires f >= 1
    ensures a * f >= a
  {
  }
}
