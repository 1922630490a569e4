/** The queue client's loops. Each runs against an arbitrary finite script of server replies, with
    the requests of other clients in between; times are integer milliseconds since the call. */
module QueueClient {
  import opened Bytes
  import opened Common
  import opened PickleDecoder
  import opened PickleEncoder
  import opened PickleMachine
  import opened PickleStreams
  import opened PickleValue
  import opened PollTiming
  import opened QueueServer

  const MAX_POLL: Duration := 50_000
  const INITIAL_BACKOFF: Duration := 100
  const MAX_BACKOFF: Duration := 30_000

  /** The empty key is the default partition; any other key has 1 to 64 bytes. */
  function ValidatePartitionKey(partition: bytes): (r: Result<Option<bytes>>)
    ensures r.Ok? <==> |partition| <= 64
    ensures r.Ok? ==> r.value == if partition == [] then None else Some(partition)
    ensures r.Err? ==> r.error == Invalid
  {
    if partition == [] then Ok(None)
    else if |partition| > 64 then Err(Invalid)
    else Ok(Some(partition))
  }

  // ---- Getting ----

  /** What happens around one poll: the requests of others that the server handles first, then how
      many items the server hands over (as many as it likes up to what was asked), or an RPC error. */
  datatype Exchange = Exchange(others: seq<Step>, reply: PollReply)
  datatype PollReply = Hand(count: nat) | Fault(code: Code)

  type Poll = Timed<Exchange>

  function Others(script: seq<Poll>, n: nat): seq<Step>
    requires n <= |script|
  {
    if n == 0 then [] else Others(script, n - 1) + script[n - 1].event.others
  }

  /** The server when it answers the poll with this index, the polls before having got nothing. */
  function ServerAt(pf: FloatParser, s0: Server, script: seq<Poll>, i: nat): Server
    requires i < |script|
  {
    ApplyAll(pf, s0, Others(script, i + 1))
  }

  /** How many items one reply hands over. */
  function Handed(reply: PollReply, n: int, available: nat): (k: nat)
    ensures k <= available
  {
    if reply.Hand? then Max(0, Min(Min(reply.count, n), available)) else 0
  }

  function HandedAt(pf: FloatParser, s0: Server, n: int, script: seq<Poll>, i: nat): (k: nat)
    requires i < |script|
    ensures k <= |ServerAt(pf, s0, script, i).items|
  {
    Handed(script[i].event.reply, n, |ServerAt(pf, s0, script, i).items|)
  }

  /** A reply ends a get if it is an error, hands over something, or comes when the time is up. */
  predicate GetDecided(pf: FloatParser, s0: Server, n: int, timeout: Option<Duration>, script: seq<Poll>, i: nat)
    requires i < |script|
  {
    || script[i].event.reply.Fault?
    || HandedAt(pf, s0, n, script, i) > 0
    || (timeout.Some? && timeout.value <= Elapsed(Durations(script), i + 1))
  }

  /** What a get returns if this reply ends it. */
  function GetAnswer(pf: FloatParser, s0: Server, n: int, script: seq<Poll>, i: nat): Result<seq<Value>>
    requires i < |script|
  {
    var k := HandedAt(pf, s0, n, script, i);
    match script[i].event.reply
    case Fault(code) => Err(Grpc(code))
    case Hand(_) => if k == 0 then Err(QueueEmpty) else DecodeAll(pf, ServerAt(pf, s0, script, i).items[..k])
  }

  /** The polls made by a get that has made `i` of them in vain. */
  function GetPolls(pf: FloatParser, s0: Server, n: int, timeout: Option<Duration>, script: seq<Poll>, i: nat): (p: nat)
    requires i <= |script|
    ensures i <= p <= |script|
    decreases |script| - i
  {
    if i == |script| then i
    else if GetDecided(pf, s0, n, timeout, script, i) then i + 1
    else GetPolls(pf, s0, n, timeout, script, i + 1)
  }

  datatype Got = Got(r: Progress<seq<Value>>, s: Server, polls: nat)

  /** The end of a get whose poll with this index was decisive. */
  function GetEnd(pf: FloatParser, s0: Server, n: int, script: seq<Poll>, i: nat): Got
    requires i < |script|
  {
    var s, k := ServerAt(pf, s0, script, i), HandedAt(pf, s0, n, script, i);
    Got(Returned(GetAnswer(pf, s0, n, script, i)), if k == 0 then s else Apply(pf, s, Deliver(k)), i + 1)
  }

  /** A whole get: its result, the server after it, and how many polls it made. */
  function GetRun(
      pf: FloatParser, s0: Server, n: int, partition: bytes, timeout: Option<Duration>, script: seq<Poll>): (g: Got)
    ensures g.polls <= |script|
  {
    if |partition| > 64 then Got(Returned(Err(Invalid)), s0, 0)
    else
      var p := GetPolls(pf, s0, n, timeout, script, 0);
      if p > 0 && GetDecided(pf, s0, n, timeout, script, p - 1) then GetEnd(pf, s0, n, script, p - 1)
      else Got(StillRunning, ApplyAll(pf, s0, Others(script, p)), p)
  }

  lemma {:induction false} FirstDecision(
      pf: FloatParser, s0: Server, n: int, timeout: Option<Duration>, script: seq<Poll>, i: nat)
    requires i <= |script|
    ensures var p := GetPolls(pf, s0, n, timeout, script, i);
            && (forall j :: i <= j < p - 1 ==> !GetDecided(pf, s0, n, timeout, script, j))
            && (i < p < |script| ==> GetDecided(pf, s0, n, timeout, script, p - 1))
            && (p == i ==> p == |script|)
    decreases |script| - i
  {
    hide GetDecided;
    if i == |script| || GetDecided(pf, s0, n, timeout, script, i) {
    } else {
      FirstDecision(pf, s0, n, timeout, script, i + 1);
    }
  }

  /** The replies decide a get: it polls until the first reply that is an error, hands over items, or
      comes at or past the timeout; that reply alone gives its result. */
  lemma {:induction false} GetDecidedByReplies(
      pf: FloatParser, s0: Server, n: int, partition: bytes, timeout: Option<Duration>, script: seq<Poll>)
    requires |partition| <= 64
    ensures var g := GetRun(pf, s0, n, partition, timeout, script);
            && (forall j :: 0 <= j < g.polls - 1 ==> !GetDecided(pf, s0, n, timeout, script, j))
            && (g.r == StillRunning <==>
                  g.polls == |script| && forall j :: 0 <= j < |script| ==> !GetDecided(pf, s0, n, timeout, script, j))
            && (g.r.Returned? ==>
                  && g.polls > 0
                  && var i := g.polls - 1;
                  && var k := HandedAt(pf, s0, n, script, i);
                  && (forall code :: g.r == Returned(Err(Grpc(code))) <==> script[i].event.reply == Fault(code))
                  && (g.r == Returned(Err(QueueEmpty)) <==>
                        && script[i].event.reply.Hand? && k == 0
                        && timeout.Some? && timeout.value <= Elapsed(Durations(script), i + 1))
                  && (k > 0 <==> g.r.result.Ok? || g.r == Returned(Err(Serialization)))
                  && (k > 0 ==> g.r.result == DecodeAll(pf, ServerAt(pf, s0, script, i).items[..k])))
  {
    hide ServerAt, Elapsed, Apply, ApplyAll, DecodeAll;
    FirstDecision(pf, s0, n, timeout, script, 0);
  }

  /** What a get that has made `polls` polls has done to the server: at most one of its requests took
      effect, the last, and its items are exactly what is returned. */
  ghost predicate GetEffect(
      pf: FloatParser, s0: Server, n: int, script: seq<Poll>, polls: nat, r: Progress<seq<Value>>, s: Server)
    requires polls <= |script|
  {
    var before := ApplyAll(pf, s0, Others(script, polls));
    if r.Returned? && r.result.Ok? then
      var vs := r.result.value;
      && 0 < |vs| <= n && |vs| <= |before.items|
      && s == Apply(pf, before, Deliver(|vs|))
      && DecodeAll(pf, before.items[..|vs|]) == Ok(vs)
    else if r == Returned(Err(Serialization)) then
      polls > 0 &&
      var k := Handed(script[polls - 1].event.reply, n, |before.items|);
      k > 0 && DecodeAll(pf, before.items[..k]).Err? && s == Apply(pf, before, Deliver(k))
    else
      s == before
  }

  lemma {:induction false} GetHasEffect(
      pf: FloatParser, s0: Server, n: int, partition: bytes, timeout: Option<Duration>, script: seq<Poll>)
    ensures var g := GetRun(pf, s0, n, partition, timeout, script);
            && GetEffect(pf, s0, n, script, g.polls, g.r, g.s)
            && (g.r == Returned(Err(QueueEmpty)) ==> timeout.Some? && 0 < g.polls
                                                     && timeout.value <= Elapsed(Durations(script), g.polls))
            && (g.r == StillRunning ==>
                  g.polls == |script|
                  && (0 < g.polls && timeout.Some? ==> Elapsed(Durations(script), g.polls) < timeout.value))
  {
    hide Apply, ApplyAll, DecodeAll, Elapsed;
    if |partition| > 64 {
      NoSteps(pf, s0);
    } else {
      FirstDecision(pf, s0, n, timeout, script, 0);
    }
  }

  /** The first `i` polls were in vain. */
  ghost predicate InVain(
      pf: FloatParser, s0: Server, n: int, timeout: Option<Duration>, script: seq<Poll>, i: nat)
    requires i <= |script|
  {
    && GetPolls(pf, s0, n, timeout, script, 0) == GetPolls(pf, s0, n, timeout, script, i)
    && (i > 0 ==> !GetDecided(pf, s0, n, timeout, script, i - 1))
  }

  lemma {:induction false} NextPoll(
      pf: FloatParser, s0: Server, n: int, partition: bytes, timeout: Option<Duration>, script: seq<Poll>, i: nat)
    requires |partition| <= 64 && i <= |script| && InVain(pf, s0, n, timeout, script, i)
    ensures var g := GetRun(pf, s0, n, partition, timeout, script);
            if i == |script| then g == Got(StillRunning, ApplyAll(pf, s0, Others(script, i)), i)
            else if GetDecided(pf, s0, n, timeout, script, i) then g == GetEnd(pf, s0, n, script, i)
            else InVain(pf, s0, n, timeout, script, i + 1)
  {
    hide GetDecided, GetEnd;
  }

  lemma {:induction false} NoPoll(
      pf: FloatParser, s0: Server, n: int, partition: bytes, timeout: Option<Duration>, script: seq<Poll>)
    ensures InVain(pf, s0, n, timeout, script, 0)
    ensures |partition| > 64 ==>
              GetRun(pf, s0, n, partition, timeout, script) == Got(Returned(Err(Invalid)), s0, 0)
  {
  }

  /** A get is the run above, and makes the waits it should. It notices the timeout at the first empty
      reply at or past it and only then, and has the effect it should on the server. */
  method GetInternal(
      pf: FloatParser, s0: Server, n: int, partition: bytes, timeout: Option<Duration>, script: seq<Poll>)
    returns (r: Progress<seq<Value>>, s: Server, waits: seq<Duration>)
    ensures Got(r, s, |waits|) == GetRun(pf, s0, n, partition, timeout, script)
    ensures |partition| > 64 ==> r == Returned(Err(Invalid)) && waits == []
    ensures Planned(MAX_POLL, timeout, Durations(script), waits)
    ensures r == Returned(Err(QueueEmpty)) ==> Expired(timeout, Durations(script), waits)
    ensures r == StillRunning ==> |waits| == |script| && !Expired(timeout, Durations(script), waits)
    ensures GetEffect(pf, s0, n, script, |waits|, r, s)
    ensures forall j :: 0 <= j < |waits| ==> waits[j] <= 50_000 && (timeout.None? ==> waits[j] == 50_000)
  {
    hide Apply, ApplyAll, DecodeAll, GetEffect, GetRun, InVain;
    GetHasEffect(pf, s0, n, partition, timeout, script);
    waits, s := [], s0;
    NoSteps(pf, s0);
    NoPoll(pf, s0, n, partition, timeout, script);
    var key := ValidatePartitionKey(partition);
    if key.Err? {
      return Returned(Err(key.error)), s, waits;
    }
    var pollTimeout := if timeout.Some? then Min(MAX_POLL, timeout.value) else MAX_POLL;
    var now := 0;
    for i := 0 to |script|
      invariant |waits| == i && now == Elapsed(Durations(script), i)
      invariant s == ApplyAll(pf, s0, Others(script, i))
      invariant InVain(pf, s0, n, timeout, script, i)
      invariant pollTimeout == if timeout.Some? then Min(MAX_POLL, timeout.value - now) else MAX_POLL
      invariant timeout.Some? && i > 0 ==> now < timeout.value
      invariant Planned(MAX_POLL, timeout, Durations(script), waits)
    {
      var poll := script[i];
      ApplyAllAppend(pf, s0, Others(script, i), poll.event.others);
      s := ApplyAll(pf, s, poll.event.others);
      NextPoll(pf, s0, n, partition, timeout, script, i);
      waits := waits + [pollTimeout];
      now := now + poll.elapsed;
      if poll.event.reply.Fault? {
        return Returned(Err(Grpc(poll.event.reply.code))), s, waits;
      }
      var raws := s.items[..Handed(poll.event.reply, n, |s.items|)];
      if raws != [] {
        s := Apply(pf, s, Deliver(|raws|));
        var out := DecodeItems(pf, raws);
        return Returned(out), s, waits;
      }
      if timeout.Some? {
        if now >= timeout.value {
          return Returned(Err(QueueEmpty)), s, waits;
        }
        pollTimeout := Min(pollTimeout, timeout.value - now);
      }
    }
    NextPoll(pf, s0, n, partition, timeout, script, |script|);
    r := StillRunning;
  }

  lemma {:induction false} NoSteps(pf: FloatParser, s: Server)
    ensures ApplyAll(pf, s, []) == s
  {
  }

  method DecodeItems(pf: FloatParser, raws: seq<bytes>) returns (r: Result<seq<Value>>)
    ensures r == DecodeAll(pf, raws)
  {
    hide Deserialize;
    var out := [];
    for i := 0 to |raws|
      invariant DecodeAll(pf, raws[..i]) == Ok(out)
    {
      assert raws[..i + 1][..i] == raws[..i];
      var v := PickleDeserialize(pf, raws[i]);
      if v.Err? {
        DecodeAllFails(pf, raws, i + 1);
        return Err(v.error);
      }
      out := out + [v.value];
    }
    assert raws[..|raws|] == raws;
    r := Ok(out);
  }

  lemma {:induction false} DecodeAllFails(pf: FloatParser, raws: seq<bytes>, i: nat)
    requires i <= |raws| && DecodeAll(pf, raws[..i]).Err?
    ensures DecodeAll(pf, raws) == Err(Serialization)
    decreases |raws|
  {
    hide Deserialize;
    if i == |raws| {
      assert raws[..i] == raws;
    } else {
      assert raws[..|raws| - 1][..i] == raws[..i];
      DecodeAllFails(pf, raws[..|raws| - 1], i);
    }
  }

  /** Taking the first of one item never panics: a successful get has exactly one. */
  method Get(pf: FloatParser, s0: Server, partition: bytes, timeout: Option<Duration>, script: seq<Poll>)
    returns (r: Progress<Value>, s: Server, polls: nat)
    ensures var g := GetRun(pf, s0, 1, partition, timeout, script);
            && s == g.s && polls == g.polls
            && (r.StillRunning? <==> g.r.StillRunning?)
            && (r.Returned? && r.result.Err? ==> g.r == Returned(Err(r.result.error)))
            && (r.Returned? && r.result.Ok? ==> g.r == Returned(Ok([r.result.value])))
    ensures polls <= |script|
    ensures r.Returned? && r.result.Ok? ==>
              var before := ApplyAll(pf, s0, Others(script, polls));
              && before.items != [] && Deserialize(pf, before.items[0]) == r.result
              && s == Apply(pf, before, Deliver(1))
    ensures !(r.Returned? && r.result.Ok?) && r != Returned(Err(Serialization)) ==>
              s == ApplyAll(pf, s0, Others(script, polls))
  {
    hide Apply, ApplyAll, Deserialize, Expired, GetRun;
    var vs, s', waits := GetInternal(pf, s0, 1, partition, timeout, script);
    s, polls := s', |waits|;
    match vs
    case StillRunning => r := StillRunning;
    case Returned(Err(e)) => r := Returned(Err(e));
    case Returned(Ok(values)) =>
      r := Returned(Ok(values[0]));
      var before := ApplyAll(pf, s0, Others(script, polls));
      assert values == [values[0]];
      assert before.items[..1][..0] == [] && before.items[..1][0] == before.items[0];
  }

  // ---- Putting ----

  /** Around one put request: the requests of others first, then the answer, how long the request
      took, and by how much a following sleep overshoots. */
  datatype Try = Try(others: seq<Step>, answer: Answer, elapsed: Duration, late: Duration)
  datatype Answer = Stored | Refused(code: Code)

  datatype Sleep = Sleep(start: Duration, length: Duration)

  function OthersOf(script: seq<Try>, n: nat): seq<Step>
    requires n <= |script|
  {
    if n == 0 then [] else OthersOf(script, n - 1) + script[n - 1].others
  }

  /** The untruncated length of the `k`-th sleep, counting from 1. */
  function Backoff(k: nat): nat {
    Min(INITIAL_BACKOFF * Power(2, k), MAX_BACKOFF)
  }

  /** How long a put sleeps that gets this refusal, counting from 0, at this time; a deadline only
      ever shortens a sleep, to end exactly there. */
  function SleepLength(timeout: Option<Duration>, k: nat, at: Duration): Duration {
    if timeout.None? then Backoff(k + 1) else Max(0, Min(Backoff(k + 1), timeout.value - at))
  }

  /** When the attempt with this index is answered, the attempts before having been refused. */
  function AnswerTime(timeout: Option<Duration>, script: seq<Try>, i: nat): Duration
    requires i < |script|
    decreases i, 0
  {
    (if i == 0 then 0 else WakeTime(timeout, script, i - 1)) + script[i].elapsed
  }

  /** When a put wakes from the sleep after this attempt, which may overshoot. */
  function WakeTime(timeout: Option<Duration>, script: seq<Try>, i: nat): Duration
    requires i < |script|
    decreases i, 1
  {
    var at := AnswerTime(timeout, script, i);
    at + SleepLength(timeout, i, at) + script[i].late
  }

  /** An answer ends a put unless the queue is full and there is time left. */
  predicate PutDecided(timeout: Option<Duration>, script: seq<Try>, i: nat)
    requires i < |script|
  {
    || script[i].answer != Refused(ResourceExhausted)
    || (timeout.Some? && timeout.value <= AnswerTime(timeout, script, i))
  }

  /** What a put returns if this answer ends it. */
  function PutAnswer(answer: Answer): Result<()> {
    match answer
    case Stored => Ok(())
    case Refused(ResourceExhausted) => Err(QueueFull)
    case Refused(code) => Err(Grpc(code))
  }

  /** The attempts made by a put that has made `i` of them in vain. */
  function PutAttempts(timeout: Option<Duration>, script: seq<Try>, i: nat): (n: nat)
    requires i <= |script|
    ensures i <= n <= |script|
    decreases |script| - i
  {
    if i == |script| then i
    else if PutDecided(timeout, script, i) then i + 1
    else PutAttempts(timeout, script, i + 1)
  }

  /** The sleeps after the first `n` attempts. */
  function PutSleeps(timeout: Option<Duration>, script: seq<Try>, n: nat): (sleeps: seq<Sleep>)
    requires n <= |script|
    ensures |sleeps| == n
  {
    seq(n, k requires 0 <= k < n =>
      var at := AnswerTime(timeout, script, k); Sleep(at, SleepLength(timeout, k, at)))
  }

  /** The result of a put, how many attempts it made, and its sleeps. */
  datatype PutTrace = PutTrace(r: Progress<()>, attempts: nat, sleeps: seq<Sleep>)

  function PutRun(partition: bytes, timeout: Option<Duration>, script: seq<Try>): (t: PutTrace)
    ensures t.attempts <= |script|
  {
    if |partition| > 64 then PutTrace(Returned(Err(Invalid)), 0, [])
    else
      var n := PutAttempts(timeout, script, 0);
      if n > 0 && PutDecided(timeout, script, n - 1)
      then PutTrace(Returned(PutAnswer(script[n - 1].answer)), n, PutSleeps(timeout, script, n - 1))
      else PutTrace(StillRunning, n, PutSleeps(timeout, script, n))
  }

  /** A put takes effect when its last attempt is answered, if it succeeds, and not otherwise. */
  function AfterPut(
      pf: FloatParser, s0: Server, values: seq<Value>, partition: bytes, timeout: Option<Duration>,
      script: seq<Try>): Server
  {
    var t := PutRun(partition, timeout, script);
    var before := ApplyAll(pf, s0, OthersOf(script, t.attempts));
    if t.r == Returned(Ok(())) then Apply(pf, before, Accept(values)) else before
  }

  lemma {:induction false} FirstFinalAnswer(timeout: Option<Duration>, script: seq<Try>, i: nat)
    requires i <= |script|
    ensures var n := PutAttempts(timeout, script, i);
            && (forall j :: i <= j < n - 1 ==> !PutDecided(timeout, script, j))
            && (i < n < |script| ==> PutDecided(timeout, script, n - 1))
            && (n == i ==> n == |script|)
    decreases |script| - i
  {
    hide PutDecided;
    if i == |script| || PutDecided(timeout, script, i) {
    } else {
      FirstFinalAnswer(timeout, script, i + 1);
    }
  }

  /** The answers decide a put: every attempt but the last found the queue full before the deadline,
      and the last answer alone gives the result; `QueueFull` comes exactly when the queue is full at
      or after the deadline. */
  lemma {:induction false} PutDecidedByAnswers(partition: bytes, timeout: Option<Duration>, script: seq<Try>)
    requires |partition| <= 64
    ensures var t := PutRun(partition, timeout, script);
            && (forall j :: 0 <= j < t.attempts - 1 ==> !PutDecided(timeout, script, j))
            && (t.r == StillRunning <==>
                  t.attempts == |script| && forall j :: 0 <= j < |script| ==> !PutDecided(timeout, script, j))
            && (t.r.Returned? ==>
                  && t.attempts > 0
                  && var last := script[t.attempts - 1].answer;
                  && (t.r.result == Ok(()) <==> last == Stored)
                  && (t.r.result == Err(QueueFull) <==>
                        && last == Refused(ResourceExhausted) && timeout.Some?
                        && timeout.value <= AnswerTime(timeout, script, t.attempts - 1))
                  && (t.r.result.Err? && t.r.result.error != QueueFull ==>
                        last.Refused? && last.code != ResourceExhausted && t.r.result.error == Grpc(last.code)))
  {
    hide AnswerTime, PutSleeps;
    FirstFinalAnswer(timeout, script, 0);
  }

  /** The `k`-th sleep starts when the request before it has been answered. Lengths double from 200 ms
      to 30 s; a deadline only ever shortens one, and none ends past it. */
  ghost predicate GoodSleep(timeout: Option<Duration>, script: seq<Try>, sleeps: seq<Sleep>, k: nat)
    requires k < |script| && k < |sleeps|
  {
    && sleeps[k].start
       == (if k == 0 then 0 else sleeps[k - 1].start + sleeps[k - 1].length + script[k - 1].late) + script[k].elapsed
    && sleeps[k].length > 0
    && var full := Min(100 * Power(2, k + 1), 30_000);
    && (timeout.None? ==> sleeps[k].length == full)
    && (timeout.Some? ==> sleeps[k].length == Min(full, timeout.value - sleeps[k].start)
                          && sleeps[k].start + sleeps[k].length <= timeout.value)
  }

  ghost predicate GoodSleeps(timeout: Option<Duration>, script: seq<Try>, sleeps: seq<Sleep>) {
    |sleeps| <= |script| && forall k :: 0 <= k < |sleeps| ==> GoodSleep(timeout, script, sleeps, k)
  }

  lemma {:induction false} SleepsAreGood(partition: bytes, timeout: Option<Duration>, script: seq<Try>)
    ensures GoodSleeps(timeout, script, PutRun(partition, timeout, script).sleeps)
  {
    hide GoodSleep, PutDecided, PutSleeps;
    FirstFinalAnswer(timeout, script, 0);
    var t := PutRun(partition, timeout, script);
    forall k | 0 <= k < |t.sleeps|
      ensures GoodSleep(timeout, script, t.sleeps, k)
    {
      assert !PutDecided(timeout, script, k);
      SleepIsGood(timeout, script, |t.sleeps|, k);
    }
  }

  lemma {:induction false} SleepIsGood(timeout: Option<Duration>, script: seq<Try>, n: nat, k: nat)
    requires k < n <= |script| && !PutDecided(timeout, script, k)
    ensures GoodSleep(timeout, script, PutSleeps(timeout, script, n), k)
  {
    hide Backoff, AnswerTime, WakeTime, Power;
    BackoffBounds(k);
    BackoffBounds(k + 1);
    NextSleep(timeout, script, k);
    if k > 0 {
      NextSleep(timeout, script, k - 1);
    }
  }

  lemma {:induction false} BackoffBounds(k: nat)
    ensures 200 <= Backoff(k + 1) == Min(2 * Backoff(k), MAX_BACKOFF)
    ensures Backoff(k) == Min(100 * Power(2, k), 30_000)
  {
    assert Power(2, k + 1) == 2 * Power(2, k);
  }

  /** A put that is still trying has slept at least 200 ms for each attempt, or reached its deadline. */
  lemma {:induction false} WakesLate(timeout: Option<Duration>, script: seq<Try>, i: nat)
    requires i < |script| && timeout.Some? && forall j :: 0 <= j <= i ==> !PutDecided(timeout, script, j)
    ensures 200 * (i + 1) <= WakeTime(timeout, script, i) || timeout.value <= WakeTime(timeout, script, i)
  {
    hide Backoff;
    BackoffBounds(i);
    assert !PutDecided(timeout, script, i);
    if i == 0 {
    } else {
      WakesLate(timeout, script, i - 1);
    }
  }

  /** Under a deadline the attempts are bounded. */
  lemma {:induction false} AttemptsBounded(partition: bytes, timeout: Option<Duration>, script: seq<Try>)
    requires timeout.Some?
    ensures PutRun(partition, timeout, script).attempts <= timeout.value / 200 + 2
  {
    hide Backoff;
    FirstFinalAnswer(timeout, script, 0);
    var n := PutRun(partition, timeout, script).attempts;
    if n > 2 {
      WakesLate(timeout, script, n - 3);
      assert !PutDecided(timeout, script, n - 2);
      assert 200 * (n - 2) < timeout.value;
    }
  }

  /** The first `i` attempts found the queue full before the deadline. */
  ghost predicate AllRefused(timeout: Option<Duration>, script: seq<Try>, i: nat)
    requires i <= |script|
  {
    && PutAttempts(timeout, script, 0) == PutAttempts(timeout, script, i)
    && (i > 0 ==> !PutDecided(timeout, script, i - 1))
  }

  lemma {:induction false} NoAttempt(partition: bytes, timeout: Option<Duration>, script: seq<Try>)
    ensures |partition| > 64 ==> PutRun(partition, timeout, script) == PutTrace(Returned(Err(Invalid)), 0, [])
    ensures AllRefused(timeout, script, 0) && PutSleeps(timeout, script, 0) == [] && Backoff(0) == INITIAL_BACKOFF
  {
  }

  lemma {:induction false} NextAttempt(partition: bytes, timeout: Option<Duration>, script: seq<Try>, i: nat)
    requires |partition| <= 64 && i <= |script| && AllRefused(timeout, script, i)
    ensures var t := PutRun(partition, timeout, script);
            if i == |script| then t == PutTrace(StillRunning, i, PutSleeps(timeout, script, i))
            else if PutDecided(timeout, script, i)
            then t == PutTrace(Returned(PutAnswer(script[i].answer)), i + 1, PutSleeps(timeout, script, i))
            else AllRefused(timeout, script, i + 1)
  {
    hide PutDecided, PutSleeps;
  }

  lemma {:induction false} NextSleep(timeout: Option<Duration>, script: seq<Try>, i: nat)
    requires i < |script|
    ensures var at := AnswerTime(timeout, script, i);
            && at == (if i == 0 then 0 else WakeTime(timeout, script, i - 1)) + script[i].elapsed
            && WakeTime(timeout, script, i) == at + SleepLength(timeout, i, at) + script[i].late
            && PutSleeps(timeout, script, i + 1)
               == PutSleeps(timeout, script, i) + [Sleep(at, SleepLength(timeout, i, at))]
  {
  }

  /** A put is the run above. Every attempt offers the same pickles in order; the put takes effect
      exactly once if it succeeds and not at all otherwise; sleeps follow the backoff; `QueueFull`
      comes only at or after the deadline; and the attempts under a deadline are bounded. */
  method PutInternal(pf: FloatParser, s0: Server, values: seq<Value>, partition: bytes, timeout: Option<Duration>,
                     script: seq<Try>)
    returns (r: Progress<()>, s: Server, requests: seq<seq<bytes>>, sleeps: seq<Sleep>)
    ensures PutTrace(r, |requests|, sleeps) == PutRun(partition, timeout, script)
    ensures s == AfterPut(pf, s0, values, partition, timeout, script)
    ensures forall j :: 0 <= j < |requests| ==> requests[j] == SerializeAll(values)
    ensures GoodSleeps(timeout, script, sleeps)
    ensures timeout.Some? ==> |requests| <= timeout.value / 200 + 2
    ensures r == StillRunning ==> |requests| == |script|
    ensures |partition| > 64 ==> r == Returned(Err(Invalid)) && requests == []
    ensures |partition| <= 64 && r.Returned? ==>
              && requests != []
              && var last := script[|requests| - 1].answer;
              && (r.result.Ok? <==> last == Stored)
              && (r.result == Err(QueueFull) <==>
                    && last == Refused(ResourceExhausted) && timeout.Some?
                    && timeout.value <= AnswerTime(timeout, script, |requests| - 1))
              && (r.result.Err? && r.result.error != QueueFull ==>
                    last.Refused? && last.code != ResourceExhausted && r.result.error == Grpc(last.code))
  {
    hide Apply, ApplyAll, Backoff, SerializeAll, GoodSleeps, AnswerTime, WakeTime, PutSleeps, PutRun, AllRefused;
    SleepsAreGood(partition, timeout, script);
    if timeout.Some? {
      AttemptsBounded(partition, timeout, script);
    }
    if |partition| <= 64 {
      PutDecidedByAnswers(partition, timeout, script);
    }
    requests, sleeps, s := [], [], s0;
    NoSteps(pf, s0);
    NoAttempt(partition, timeout, script);
    var key := ValidatePartitionKey(partition);
    if key.Err? {
      return Returned(Err(key.error)), s, requests, sleeps;
    }
    var encoded := EncodeItems(values);
    var delay, now := INITIAL_BACKOFF, 0;
    for i := 0 to |script|
      invariant |requests| == i && forall j :: 0 <= j < i ==> requests[j] == encoded
      invariant sleeps == PutSleeps(timeout, script, i)
      invariant s == ApplyAll(pf, s0, OthersOf(script, i))
      invariant AllRefused(timeout, script, i)
      invariant delay == Backoff(i) || (timeout.Some? && timeout.value <= now)
      invariant delay >= 0
      invariant now == if i == 0 then 0 else WakeTime(timeout, script, i - 1)
    {
      var try := script[i];
      ApplyAllAppend(pf, s0, OthersOf(script, i), try.others);
      s := ApplyAll(pf, s, try.others);
      requests := requests + [encoded];
      now := now + try.elapsed;
      NextSleep(timeout, script, i);
      NextAttempt(partition, timeout, script, i);
      match try.answer {
        case Stored =>
          s := Apply(pf, s, Accept(values));
          return Returned(Ok(())), s, requests, sleeps;
        case Refused(code) =>
          if code != ResourceExhausted {
            return Returned(Err(Grpc(code))), s, requests, sleeps;
          }
          BackoffBounds(i);
          delay := Min(2 * delay, MAX_BACKOFF);
          if timeout.Some? {
            var remaining := Max(0, timeout.value - now);
            if remaining == 0 {
              return Returned(Err(QueueFull)), s, requests, sleeps;
            }
            delay := Min(delay, remaining);
          }
          sleeps := sleeps + [Sleep(now, delay)];
          now := now + delay + try.late;
      }
    }
    NextAttempt(partition, timeout, script, |script|);
    r := StillRunning;
  }

  method EncodeItems(values: seq<Value>) returns (encoded: seq<bytes>)
    ensures encoded == SerializeAll(values)
  {
    encoded := [];
    for i := 0 to |values|
      invariant encoded == SerializeAll(values[..i])
    {
      var b := PickleSerialize(values[i]);
      encoded := encoded + [b];
      assert values[..i + 1][..i] == values[..i];
    }
    assert values[..|values|] == values;
  }

  // ---- Whole runs ----

  /** One call of the client: put and get are put_many and get_many of one value. */
  datatype Call =
    | PutMany(values: seq<Value>, partition: bytes, putTimeout: Option<Duration>, tries: seq<Try>)
    | GetMany(count: int, partition: bytes, getTimeout: Option<Duration>, polls: seq<Poll>)

  ghost predicate EncodableCall(c: Call) {
    match c
    case PutMany(values, _, _, tries) =>
      AllEncodable(values) && forall i :: 0 <= i < |tries| ==> EncodableSteps(tries[i].others)
    case GetMany(_, _, _, polls) => forall i :: 0 <= i < |polls| ==> EncodableSteps(polls[i].event.others)
  }

  ghost predicate Alone(c: Call) {
    match c
    case PutMany(_, _, _, tries) => forall i :: 0 <= i < |tries| ==> tries[i].others == []
    case GetMany(_, _, _, polls) => forall i :: 0 <= i < |polls| ==> polls[i].event.others == []
  }

  /** The server after a run of calls, and what each call returned; a put returns no values. */
  datatype Run = Run(s: Server, results: seq<Progress<seq<Value>>>)

  function Perform(pf: FloatParser, before: Run, c: Call): Run {
    match c
    case PutMany(values, partition, timeout, tries) =>
      Run(AfterPut(pf, before.s, values, partition, timeout, tries),
          before.results + [NoValues(PutRun(partition, timeout, tries).r)])
    case GetMany(count, partition, timeout, polls) =>
      var g := GetRun(pf, before.s, count, partition, timeout, polls);
      Run(g.s, before.results + [g.r])
  }

  function NoValues(p: Progress<()>): Progress<seq<Value>> {
    match p
    case StillRunning => StillRunning
    case Returned(Ok(_)) => Returned(Ok([]))
    case Returned(Err(e)) => Returned(Err(e))
  }

  function RunOf(pf: FloatParser, s0: Server, calls: seq<Call>): (run: Run)
    ensures |run.results| == |calls|
  {
    if calls == [] then Run(s0, [])
    else Perform(pf, RunOf(pf, s0, calls[..|calls| - 1]), calls[|calls| - 1])
  }

  /** All values that calls with these results returned, in order. */
  function Received(results: seq<Progress<seq<Value>>>): seq<Value> {
    if results == [] then []
    else Received(results[..|results| - 1]) + Values(results[|results| - 1])
  }

  function Values(r: Progress<seq<Value>>): seq<Value> {
    if r.Returned? && r.result.Ok? then r.result.value else []
  }

  /** All values of the puts that report success. */
  function Sent(calls: seq<Call>): seq<Value> {
    if calls == [] then []
    else Sent(calls[..|calls| - 1]) + SentBy(calls[|calls| - 1])
  }

  function SentBy(c: Call): seq<Value> {
    if c.PutMany? && PutRun(c.partition, c.putTimeout, c.tries).r == Returned(Ok(())) then c.values else []
  }

  /** Any run of puts and gets of a client, among any requests of others, refines a FIFO of values and
      never fails to decode. For a client alone, what it got is the next values of the FIFO in order,
      and what it put is appended. */
  lemma {:induction false} RunRefines(pf: FloatParser, s0: Server, calls: seq<Call>)
    requires Refines(s0) && forall i :: 0 <= i < |calls| ==> EncodableCall(calls[i])
    ensures var run := RunOf(pf, s0, calls);
            && Refines(run.s)
            && (forall i :: 0 <= i < |calls| ==> run.results[i] != Returned(Err(Serialization)))
            && ((forall i :: 0 <= i < |calls| ==> Alone(calls[i])) ==>
                  && run.s.accepted == s0.accepted + Sent(calls)
                  && run.s.received == s0.received + Received(run.results))
  {
    hide Refines, EncodableCall, Alone, Perform, SentBy, Values;
    if calls == [] {
    } else {
      var init, c := calls[..|calls| - 1], calls[|calls| - 1];
      RunRefines(pf, s0, init);
      var before := RunOf(pf, s0, init);
      CallRefines(pf, before, c);
      var after := Perform(pf, before, c);
      assert after.results[..|init|] == before.results;
      assert forall i :: 0 <= i < |init| ==> init[i] == calls[i];
    }
  }

  lemma {:induction false} CallRefines(pf: FloatParser, before: Run, c: Call)
    requires Refines(before.s) && EncodableCall(c)
    ensures var after := Perform(pf, before, c);
            && Refines(after.s)
            && |after.results| == |before.results| + 1 && before.results <= after.results
            && var r := after.results[|before.results|];
            && r != Returned(Err(Serialization))
            && (Alone(c) ==>
                  && after.s.accepted == before.s.accepted + SentBy(c)
                  && after.s.received == before.s.received + Values(r))
  {
    hide Refines, GetEffect, EncodableCall, Alone, Apply, ApplyAll, GetRun, PutRun;
    match c
    case PutMany(values, partition, timeout, tries) =>
      var t := PutRun(partition, timeout, tries);
      NoSerializationError(partition, timeout, tries);
      PutKeeps(pf, before.s, c, t.attempts, t.r == Returned(Ok(())));
    case GetMany(count, partition, timeout, polls) =>
      GetHasEffect(pf, before.s, count, partition, timeout, polls);
      var g := GetRun(pf, before.s, count, partition, timeout, polls);
      GetKeeps(pf, before.s, c, g.polls, g.r, g.s);
  }

  lemma {:induction false} NoSerializationError(partition: bytes, timeout: Option<Duration>, tries: seq<Try>)
    ensures PutRun(partition, timeout, tries).r != Returned(Err(Serialization))
  {
  }

  /** A sequence of calls is the run above, and so refines a FIFO of values. */
  method RunCalls(pf: FloatParser, s0: Server, calls: seq<Call>)
    returns (s: Server, results: seq<Progress<seq<Value>>>)
    requires Refines(s0) && forall i :: 0 <= i < |calls| ==> EncodableCall(calls[i])
    ensures Run(s, results) == RunOf(pf, s0, calls)
    ensures Refines(s) && forall i :: 0 <= i < |results| ==> results[i] != Returned(Err(Serialization))
    ensures (forall i :: 0 <= i < |calls| ==> Alone(calls[i])) ==>
              s.accepted == s0.accepted + Sent(calls) && s.received == s0.received + Received(results)
  {
    hide Refines, Alone, EncodableCall, Planned, Expired, GoodSleeps, GetEffect, GetRun, PutRun, AfterPut, Received,
      Sent;
    RunRefines(pf, s0, calls);
    s, results := s0, [];
    for i := 0 to |calls|
      invariant Run(s, results) == RunOf(pf, s0, calls[..i])
    {
      assert calls[..i + 1][..i] == calls[..i];
      match calls[i] {
        case PutMany(values, partition, timeout, tries) =>
          var r, s', _, _ := PutInternal(pf, s, values, partition, timeout, tries);
          s, results := s', results + [NoValues(r)];
        case GetMany(count, partition, timeout, polls) =>
          var r, s', _ := GetInternal(pf, s, count, partition, timeout, polls);
          s, results := s', results + [r];
      }
    }
    assert calls[..|calls|] == calls;
  }

  lemma {:induction false} PutKeeps(pf: FloatParser, s: Server, c: Call, n: nat, stored: bool)
    requires Refines(s) && c.PutMany? && EncodableCall(c) && n <= |c.tries|
    ensures var before := ApplyAll(pf, s, OthersOf(c.tries, n));
            var s' := if stored then Apply(pf, before, Accept(c.values)) else before;
            Refines(s') &&
            (Alone(c) ==> s'.accepted == s.accepted + (if stored then c.values else []) && s'.received == s.received)
  {
    hide Refines;
    PutRefines(pf, s, c.values, c.tries, n);
    if Alone(c) {
      NoOthersOf(c.tries, n);
    }
  }

  lemma {:induction false} GetKeeps(pf: FloatParser, s: Server, c: Call, n: nat, r: Progress<seq<Value>>, s': Server)
    requires Refines(s) && c.GetMany? && EncodableCall(c) && n <= |c.polls|
    requires GetEffect(pf, s, c.count, c.polls, n, r, s')
    ensures Refines(s') && r != Returned(Err(Serialization))
    ensures Alone(c) ==>
              s'.accepted == s.accepted &&
              s'.received == s.received + (if r.Returned? && r.result.Ok? then r.result.value else [])
  {
    hide Refines, DecodeAll;
    GetRefines(pf, s, c.polls, n);
    if Alone(c) {
      NoOthers(c.polls, n);
    }
  }

  lemma {:induction false} NoOthers(script: seq<Poll>, n: nat)
    requires n <= |script| && forall i :: 0 <= i < |script| ==> script[i].event.others == []
    ensures Others(script, n) == []
  {
    if n == 0 {
    } else {
      NoOthers(script, n - 1);
    }
  }

  lemma {:induction false} NoOthersOf(script: seq<Try>, n: nat)
    requires n <= |script| && forall i :: 0 <= i < |script| ==> script[i].others == []
    ensures OthersOf(script, n) == []
  {
    if n == 0 {
    } else {
      NoOthersOf(script, n - 1);
    }
  }

  lemma {:induction false} EncodableOthers(script: seq<Poll>, n: nat)
    requires n <= |script| && forall i :: 0 <= i < |script| ==> EncodableSteps(script[i].event.others)
    ensures EncodableSteps(Others(script, n))
  {
    if n == 0 {
    } else {
      EncodableOthers(script, n - 1);
    }
  }

  lemma {:induction false} EncodableOthersOf(script: seq<Try>, n: nat)
    requires n <= |script| && forall i :: 0 <= i < |script| ==> EncodableSteps(script[i].others)
    ensures EncodableSteps(OthersOf(script, n))
  {
    if n == 0 {
    } else {
      EncodableOthersOf(script, n - 1);
    }
  }

  lemma {:induction false} PutRefines(pf: FloatParser, s: Server, values: seq<Value>, script: seq<Try>, n: nat)
    requires Refines(s) && AllEncodable(values) && n <= |script|
    requires forall i :: 0 <= i < |script| ==> EncodableSteps(script[i].others)
    ensures var before := ApplyAll(pf, s, OthersOf(script, n));
            Refines(before) && Refines(Apply(pf, before, Accept(values)))
  {
    hide Refines, Apply, ApplyAll, AllEncodable;
    EncodableOthersOf(script, n);
    AnyInterleavingRefines(pf, s, OthersOf(script, n));
    StepRefines(pf, ApplyAll(pf, s, OthersOf(script, n)), Accept(values));
  }

  lemma {:induction false} GetRefines(pf: FloatParser, s: Server, script: seq<Poll>, n: nat)
    requires Refines(s) && n <= |script|
    requires forall i :: 0 <= i < |script| ==> EncodableSteps(script[i].event.others)
    ensures var before := ApplyAll(pf, s, Others(script, n));
            Refines(before) &&
            forall k: nat | k <= |before.items| ::
              DecodeAll(pf, before.items[..k]).Ok? && Refines(Apply(pf, before, Deliver(k)))
  {
    hide Refines, Apply, ApplyAll, DecodeAll;
    EncodableOthers(script, n);
    AnyInterleavingRefines(pf, s, Others(script, n));
    var before := ApplyAll(pf, s, Others(script, n));
    forall k: nat | k <= |before.items|
      ensures DecodeAll(pf, before.items[..k]).Ok? && Refines(Apply(pf, before, Deliver(k)))
    {
      StepRefines(pf, before, Deliver(k));
    }
  }
}
