/** The timing that the client's two polling loops share: each wait is capped, and capped again by
    what remains of the caller's timeout. Times are integer milliseconds. */
module PollTiming {
  import opened Common

  type Duration = nat

  /** Something a loop waited for, and how long it took. */
  datatype Timed<+E> = Timed(event: E, elapsed: Duration)

  function Durations<E>(polls: seq<Timed<E>>): (d: seq<Duration>)
    ensures |d| == |polls|
  {
    seq(|polls|, i requires 0 <= i < |polls| => polls[i].elapsed)
  }

  /** The time taken by the first `n` polls. */
  function Elapsed(durations: seq<Duration>, n: nat): Duration
    requires n <= |durations|
  {
    if n == 0 then 0 else Elapsed(durations, n - 1) + durations[n - 1]
  }

  /** The polls `waits` are those of a loop with this cap and timeout, against polls that took
      `durations`: every wait is the smaller of the cap and the time left, and each poll but the
      first starts before the timeout. */
  ghost predicate Planned(cap: Duration, timeout: Option<Duration>, durations: seq<Duration>, waits: seq<Duration>) {
    && |waits| <= |durations|
    && (timeout.None? ==> forall j :: 0 <= j < |waits| ==> waits[j] == cap)
    && (timeout.Some? ==>
          && (forall j :: 0 <= j < |waits| ==> waits[j] == Min(cap, timeout.value - Elapsed(durations, j)))
          && (forall j :: 0 < j < |waits| ==> Elapsed(durations, j) < timeout.value))
  }

  /** The loop's timeout check passed after the last of these polls. */
  ghost predicate Expired(timeout: Option<Duration>, durations: seq<Duration>, waits: seq<Duration>) {
    timeout.Some? && 0 < |waits| <= |durations| && timeout.value <= Elapsed(durations, |waits|)
  }

  /** No wait exceeds the cap or runs past the timeout. */
  lemma {:induction false} WaitsWithinTimeout(
      cap: Duration, timeout: Option<Duration>, durations: seq<Duration>, waits: seq<Duration>, j: nat)
    requires Planned(cap, timeout, durations, waits) && j < |waits|
    ensures waits[j] <= cap
    ensures timeout.Some? ==> Elapsed(durations, j) + waits[j] <= timeout.value
  {
  }

  /** If no poll overruns its wait, the timeout is noticed exactly when it is reached. */
  lemma {:induction false} ExpiresExactly(
      cap: Duration, timeout: Option<Duration>, durations: seq<Duration>, waits: seq<Duration>)
    requires Planned(cap, timeout, durations, waits) && Expired(timeout, durations, waits)
    requires forall j :: 0 <= j < |waits| ==> durations[j] <= waits[j]
    ensures Elapsed(durations, |waits|) == timeout.value
  {
    var last := |waits| - 1;
    WaitsWithinTimeout(cap, timeout, durations, waits, last);
    assert durations[last] <= waits[last];
  }

  /** If every poll uses its full wait, the number of polls is the timeout over the cap, rounded up,
      and at least one. */
  lemma {:induction false} FullWaitPolls(
      cap: Duration, timeout: Option<Duration>, durations: seq<Duration>, waits: seq<Duration>)
    requires cap > 0
    requires Planned(cap, timeout, durations, waits) && Expired(timeout, durations, waits)
    requires forall j :: 0 <= j < |waits| ==> durations[j] == waits[j]
    ensures |waits| == Max(1, CeilDiv(timeout.value, cap))
  {
    var k := |waits| - 1;
    FullElapsed(cap, timeout, durations, waits, k);
    var t := timeout.value;
    assert waits[k] == Min(cap, t - cap * k);
    CeilBetween(t, cap, k);
  }

  lemma {:induction false} FullElapsed(
      cap: Duration, timeout: Option<Duration>, durations: seq<Duration>, waits: seq<Duration>, j: nat)
    requires timeout.Some? && Planned(cap, timeout, durations, waits) && j < |waits|
    requires forall i :: 0 <= i < |waits| ==> durations[i] == waits[i]
    ensures Elapsed(durations, j) == cap * j
  {
    if j == 0 {
    } else {
      FullElapsed(cap, timeout, durations, waits, j - 1);
      var before := Elapsed(durations, j - 1);
      assert waits[j - 1] == Min(cap, timeout.value - before);
      assert Elapsed(durations, j) == before + waits[j - 1] < timeout.value;
      MulStep(cap, j);
    }
  }

  lemma {:induction false} MulStep(c: int, j: int)
    ensures c * j == c * (j - 1) + c
  {
  }

  function CeilDiv(a: nat, b: nat): nat
    requires b > 0
  {
    if a % b == 0 then a / b else a / b + 1
  }

  lemma {:induction false} CeilBetween(t: nat, cap: nat, k: nat)
    requires cap > 0 && t <= cap * k + cap
    requires k > 0 ==> cap * k < t
    ensures Max(1, CeilDiv(t, cap)) == k + 1
  {
    var q, m := t / cap, t % cap;
    assert t == cap * q + m;
    if q > k {
      assert cap * q >= cap * (k + 1) by { MulMono(cap, k + 1, q); }
    } else if q < k {
      assert cap * (q + 1) <= cap * k by { MulMono(cap, q + 1, k); }
    }
    if q > k + 1 { MulMono(cap, k + 2, q); }
  }
}
