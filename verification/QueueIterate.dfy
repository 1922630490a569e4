/** Iterating over a queue with a cursor: the id of the last entry taken. */
module QueueIterate {
  import opened Bytes
  import opened Common
  import opened PickleDecoder
  import opened PickleMachine
  import opened PickleStreams
  import opened PickleValue
  import opened PollTiming
  import QueueClient
  import opened QueueServer

  const MAX_ITEM_POLL: Duration := 30_000

  datatype Entry = Entry(id: string, raw: bytes)

  /** Around one fetch: the entries that others append first, then how many entries after the cursor
      the server serves, or an RPC error. */
  datatype Fetch = Fetch(appended: seq<Entry>, reply: QueueClient.PollReply)

  type Pull = Timed<Fetch>

  /** The log when the server answers the `n`-th fetch. */
  function LogAt(log0: seq<Entry>, script: seq<Pull>, n: nat): seq<Entry>
    requires n <= |script|
  {
    if n == 0 then log0 else LogAt(log0, script, n - 1) + script[n - 1].event.appended
  }

  /** How many entries the first `n` fetches served. */
  function Served(log0: seq<Entry>, script: seq<Pull>, n: nat): (k: nat)
    requires n <= |script|
    ensures k <= |LogAt(log0, script, n)|
  {
    if n == 0 then 0
    else
      var k := Served(log0, script, n - 1);
      k + ServedNext(script[n - 1].event.reply, |LogAt(log0, script, n)| - k)
  }

  function ServedNext(reply: QueueClient.PollReply, available: nat): (k: nat)
    ensures k <= available
  {
    if reply.Hand? then Min(reply.count, available) else 0
  }

  /** The last of the first `n` fetches that served anything, counting from 1; 0 if none did. */
  function LastProgress(log0: seq<Entry>, script: seq<Pull>, n: nat): (m: nat)
    requires n <= |script|
    ensures m <= n
  {
    if n == 0 then 0
    else if Served(log0, script, n) > Served(log0, script, n - 1) then n
    else LastProgress(log0, script, n - 1)
  }

  /** How long the first `n` fetches have been idle at the end. */
  function Idle(log0: seq<Entry>, script: seq<Pull>, n: nat): int
    requires n <= |script|
  {
    Elapsed(Durations(script), n) - Elapsed(Durations(script), LastProgress(log0, script, n))
  }

  /** Entry ids are never empty and never repeat. */
  ghost predicate DistinctIds(log: seq<Entry>) {
    && (forall i :: 0 <= i < |log| ==> log[i].id != "")
    && (forall i, j :: 0 <= i < j < |log| ==> log[i].id != log[j].id)
  }

  /** Where the server starts serving: strictly after the entry with this id; an empty id is the
      beginning of the log. */
  function PositionAfter(log: seq<Entry>, id: string): (p: nat)
    ensures p <= |log|
  {
    if log == [] || id == "" then 0
    else if log[|log| - 1].id == id then |log|
    else PositionAfter(log[..|log| - 1], id)
  }

  lemma {:induction false} PositionOfEntry(log: seq<Entry>, n: nat)
    requires DistinctIds(log) && n <= |log|
    ensures PositionAfter(log, LastId(log, n)) == n
    decreases |log|
  {
    if n == 0 || n == |log| {
    } else {
      PositionOfEntry(log[..|log| - 1], n);
    }
  }

  /** The cursor after taking the first `n` entries. */
  function LastId(log: seq<Entry>, n: nat): string
    requires n <= |log|
  {
    if n == 0 then "" else log[n - 1].id
  }

  /** The entries decode, in order, to `vs`. */
  ghost predicate DecodesTo(pf: FloatParser, entries: seq<Entry>, vs: seq<Value>) {
    |vs| == |entries| && forall i :: 0 <= i < |vs| ==> Deserialize(pf, entries[i].raw) == Ok(vs[i])
  }

  ghost predicate SomeUndecodable(pf: FloatParser, log: seq<Entry>) {
    exists k :: 0 <= k < |log| && Deserialize(pf, log[k].raw).Err?
  }

  /** Each wait is what remains of the idle period, capped. */
  ghost predicate GoodWaits(log0: seq<Entry>, script: seq<Pull>, itemPoll: Duration, waits: seq<Duration>) {
    |waits| <= |script| &&
    forall j :: 0 <= j < |waits| ==> waits[j] == Min(Max(0, itemPoll - Idle(log0, script, j)), MAX_ITEM_POLL)
  }

  lemma {:induction false} OneMoreWait(log0: seq<Entry>, script: seq<Pull>, itemPoll: Duration, waits: seq<Duration>)
    requires GoodWaits(log0, script, itemPoll, waits) && |waits| < |script|
    ensures var next := Min(Max(0, itemPoll - Idle(log0, script, |waits|)), MAX_ITEM_POLL);
            GoodWaits(log0, script, itemPoll, waits + [next])
  {
    hide Idle;
  }

  /** Some entry that this fetch served does not decode. */
  ghost predicate ServedUndecodable(pf: FloatParser, log0: seq<Entry>, script: seq<Pull>, i: nat)
    requires i < |script|
  {
    var k, n := Served(log0, script, i), Served(log0, script, i + 1);
    ServedWithin(log0, script, i);
    SomeUndecodable(pf, LogAt(log0, script, i + 1)[k..n])
  }

  lemma {:induction false} ServedWithin(log0: seq<Entry>, script: seq<Pull>, i: nat)
    requires i < |script|
    ensures Served(log0, script, i) <= Served(log0, script, i + 1) <= |LogAt(log0, script, i + 1)|
  {
  }

  /** A fetch ends the loop if it fails, serves an entry that does not decode, or leaves the loop idle
      for the whole poll timeout, which for a zero timeout it always does. */
  ghost predicate Stops(pf: FloatParser, log0: seq<Entry>, script: seq<Pull>, itemPoll: Duration, i: nat)
    requires i < |script|
  {
    || script[i].event.reply.Fault?
    || ServedUndecodable(pf, log0, script, i)
    || Idle(log0, script, i + 1) >= itemPoll
  }

  /** The loop makes `n` fetches: it stops at the first fetch that should end it, and that fetch alone
      decides between the result and the error. */
  ghost predicate StopsRight(
      pf: FloatParser, log0: seq<Entry>, script: seq<Pull>, itemPoll: Duration, n: nat, r: Progress<seq<Value>>)
    requires n <= |script|
  {
    && (forall j :: 0 <= j < n - 1 ==> !Stops(pf, log0, script, itemPoll, j))
    && match r
       case StillRunning => n == |script| && (n > 0 ==> !Stops(pf, log0, script, itemPoll, n - 1))
       case Returned(result) =>
         && n > 0 && Stops(pf, log0, script, itemPoll, n - 1)
         && match script[n - 1].event.reply
            case Fault(code) => result == Err(Grpc(code))
            case Hand(_) =>
              if ServedUndecodable(pf, log0, script, n - 1) then result == Err(Serialization) else result.Ok?
  }

  /** So every fetch before the last was answered and left the loop idle for less than the poll timeout;
      and with a zero timeout there is none before the last. */
  lemma {:induction false} BusyUntilLast(
      pf: FloatParser, log0: seq<Entry>, script: seq<Pull>, itemPoll: Duration, n: nat, r: Progress<seq<Value>>, j: nat)
    requires n <= |script| && StopsRight(pf, log0, script, itemPoll, n, r) && j + 1 < n
    ensures script[j].event.reply.Hand? && Idle(log0, script, j + 1) < itemPoll
    ensures Idle(log0, script, j + 1) >= 0 && itemPoll > 0
  {
    assert !Stops(pf, log0, script, itemPoll, j);
    NonNegativeIdle(log0, script, j + 1);
  }

  lemma {:induction false} NonNegativeIdle(log0: seq<Entry>, script: seq<Pull>, n: nat)
    requires n <= |script|
    ensures Idle(log0, script, n) >= 0
  {
    if n == 0 {
    } else {
      NonNegativeIdle(log0, script, n - 1);
      Grow(log0, script, n - 1);
    }
  }

  /** The result is the decoding of exactly the entries served: a prefix of the log, each entry once
      and in order, with the cursor at the last of them. Each wait is what remains of the idle period,
      capped; the loop ends after an idle period, or with a zero poll timeout after exactly one fetch. */
  method Iterate(pf: FloatParser, log0: seq<Entry>, partition: bytes, itemPoll: Duration, script: seq<Pull>)
    returns (r: Progress<seq<Value>>, lastEntryId: string, waits: seq<Duration>)
    requires DistinctIds(LogAt(log0, script, |script|))
    ensures |partition| > 64 ==> r == Returned(Err(Invalid)) && waits == []
    ensures |waits| <= |script|
    ensures |partition| <= 64 ==> StopsRight(pf, log0, script, itemPoll, |waits|, r)
    ensures r.Returned? && r.result.Ok? ==>
              var log, n := LogAt(log0, script, |waits|), Served(log0, script, |waits|);
              && DecodesTo(pf, log[..n], r.result.value)
              && lastEntryId == LastId(log, n)
              && Idle(log0, script, |waits|) >= (if itemPoll == 0 then 0 else itemPoll)
    ensures r == Returned(Err(Serialization)) ==> SomeUndecodable(pf, LogAt(log0, script, |waits|))
    ensures GoodWaits(log0, script, itemPoll, waits)
    ensures forall j :: 0 <= j < |waits| ==> waits[j] <= 30_000
    ensures itemPoll == 0 ==> |waits| <= 1 && (r.Returned? && r.result.Ok? ==> |waits| == 1)
    ensures itemPoll == 0 && script != [] ==> r.Returned?
  {
    hide Deserialize, PositionAfter, DistinctIds, LogAt, Served, Idle, GoodWaits, DecodesTo, SomeUndecodable, Durations,
      Elapsed, LastId, Serve, ServedNext, ServedUndecodable;
    lastEntryId, waits := "", [];
    Start(pf, log0, script, itemPoll);
    var key := QueueClient.ValidatePartitionKey(partition);
    if key.Err? {
      return Returned(Err(key.error)), lastEntryId, waits;
    }
    var results: seq<Value> := [];
    var log := log0;
    var now, fetchDeadline := 0, itemPoll;
    var i := 0;
    while true
      invariant 0 <= i == |waits| <= |script| && forall j :: 0 <= j < i ==> waits[j] <= 30_000
      invariant log == LogAt(log0, script, i) && |results| == Served(log0, script, i)
      invariant DecodesTo(pf, log[..|results|], results) && lastEntryId == LastId(log, |results|)
      invariant fetchDeadline == now - Idle(log0, script, i) + itemPoll && 0 <= Idle(log0, script, i)
      invariant GoodWaits(log0, script, itemPoll, waits)
      invariant itemPoll == 0 ==> i <= 1 && (i == 1 <==> results != [])
      invariant forall j :: 0 <= j < i - 1 ==> !Stops(pf, log0, script, itemPoll, j)
      invariant i > 0 ==> (Stops(pf, log0, script, itemPoll, i - 1) <==> itemPoll == 0)
      invariant i > 0 ==> script[i - 1].event.reply.Hand? && !ServedUndecodable(pf, log0, script, i - 1)
      decreases |script| - i
    {
      var pollDuration := Min(Max(0, fetchDeadline - now), MAX_ITEM_POLL);
      if itemPoll == 0 && results != [] {
        break;
      }
      if i == |script| {
        return StillRunning, lastEntryId, waits;
      }
      var pull := script[i];
      OneMoreWait(log0, script, itemPoll, waits);
      waits := waits + [pollDuration];
      now := now + pull.elapsed;
      Grow(log0, script, i);
      log := log + pull.event.appended;
      i := i + 1;
      if pull.event.reply.Fault? {
        return Returned(Err(Grpc(pull.event.reply.code))), lastEntryId, waits;
      }
      Cursor(log0, script, i, |results|);
      assert log[..|results|] == LogAt(log0, script, i - 1)[..|results|];
      var items := Serve(log, lastEntryId, pull.event.reply);
      var decoded := DecodeEntries(pf, items);
      ServedByFetch(pf, log0, script, i - 1, lastEntryId);
      if decoded.Err? {
        UndecodableItem(pf, log, lastEntryId, pull.event.reply);
        return Returned(Err(decoded.error)), lastEntryId, waits;
      }
      ServedDecodes(pf, log, results, lastEntryId, pull.event.reply, decoded.value);
      if items != [] {
        lastEntryId := items[|items| - 1].id;
        results := results + decoded.value;
        fetchDeadline := now + itemPoll;
      } else if now >= fetchDeadline {
        break;
      }
    }
    r := Returned(Ok(results));
  }

  /** The server's answer to a fetch: entries strictly after the cursor. */
  function Serve(log: seq<Entry>, lastEntryId: string, reply: QueueClient.PollReply): seq<Entry> {
    var start := PositionAfter(log, lastEntryId);
    log[start..start + ServedNext(reply, |log| - start)]
  }

  /** The answer to a fetch is what the script says it served. */
  lemma {:induction false} ServedByFetch(pf: FloatParser, log0: seq<Entry>, script: seq<Pull>, i: nat, cursor: string)
    requires i < |script| && PositionAfter(LogAt(log0, script, i + 1), cursor) == Served(log0, script, i)
    ensures ServedUndecodable(pf, log0, script, i)
       <==> SomeUndecodable(pf, Serve(LogAt(log0, script, i + 1), cursor, script[i].event.reply))
  {
    hide LogAt, SomeUndecodable, PositionAfter;
  }

  method DecodeEntries(pf: FloatParser, items: seq<Entry>) returns (r: Result<seq<Value>>)
    ensures r.Err? <==> SomeUndecodable(pf, items)
    ensures r.Ok? ==> DecodesTo(pf, items, r.value)
    ensures r.Err? ==> r.error == Serialization
  {
    hide Deserialize;
    var out: seq<Value> := [];
    for k := 0 to |items|
      invariant DecodesTo(pf, items[..k], out)
    {
      var v := PickleDeserialize(pf, items[k].raw);
      if v.Err? {
        DeserializeError(pf, items[k].raw);
        return Err(v.error);
      }
      out := out + [v.value];
    }
    r := Ok(out);
  }

  lemma {:induction false} Start(pf: FloatParser, log0: seq<Entry>, script: seq<Pull>, itemPoll: Duration)
    ensures LogAt(log0, script, 0) == log0 && Served(log0, script, 0) == 0 && Idle(log0, script, 0) == 0
    ensures GoodWaits(log0, script, itemPoll, []) && DecodesTo(pf, log0[..0], []) && LastId(log0, 0) == ""
  {
  }

  lemma {:induction false} Grow(log0: seq<Entry>, script: seq<Pull>, i: nat)
    requires i < |script|
    ensures LogAt(log0, script, i + 1) == LogAt(log0, script, i) + script[i].event.appended
    ensures Served(log0, script, i + 1)
         == Served(log0, script, i)
            + ServedNext(script[i].event.reply, |LogAt(log0, script, i + 1)| - Served(log0, script, i))
    ensures Idle(log0, script, i + 1)
         == if Served(log0, script, i + 1) > Served(log0, script, i) then 0
            else Idle(log0, script, i) + script[i].elapsed
  {
    hide LogAt;
    GrowLog(log0, script, i);
    assert Elapsed(Durations(script), i + 1) == Elapsed(Durations(script), i) + script[i].elapsed;
  }

  lemma {:induction false} GrowLog(log0: seq<Entry>, script: seq<Pull>, i: nat)
    requires i < |script|
    ensures LogAt(log0, script, i + 1) == LogAt(log0, script, i) + script[i].event.appended
  {
  }

  /** The server finds the cursor exactly where the client left off. */
  lemma {:induction false} Cursor(log0: seq<Entry>, script: seq<Pull>, i: nat, n: nat)
    requires 0 < i <= |script| && DistinctIds(LogAt(log0, script, |script|))
    requires n <= |LogAt(log0, script, i - 1)|
    ensures n <= |LogAt(log0, script, i)|
    ensures LastId(LogAt(log0, script, i - 1), n) == LastId(LogAt(log0, script, i), n)
    ensures PositionAfter(LogAt(log0, script, i), LastId(LogAt(log0, script, i), n)) == n
  {
    hide LogAt, DistinctIds;
    GrowLog(log0, script, i - 1);
    LogPrefix(log0, script, i, |script|);
    DistinctPrefix(LogAt(log0, script, |script|), LogAt(log0, script, i));
    PositionOfEntry(LogAt(log0, script, i), n);
  }

  lemma {:induction false} DistinctPrefix(log: seq<Entry>, part: seq<Entry>)
    requires DistinctIds(log) && part <= log
    ensures DistinctIds(part)
  {
  }

  lemma {:induction false} LogPrefix(log0: seq<Entry>, script: seq<Pull>, n: nat, m: nat)
    requires n <= m <= |script|
    ensures LogAt(log0, script, n) <= LogAt(log0, script, m)
    decreases m
  {
    if n >= m {
    } else {
      LogPrefix(log0, script, n, m - 1);
    }
  }

  lemma {:induction false} DecodesMore(
      pf: FloatParser, log: seq<Entry>, vs: seq<Value>, items: seq<Entry>, ws: seq<Value>)
    requires |vs| + |items| <= |log| && items == log[|vs|..|vs| + |items|]
    requires DecodesTo(pf, log[..|vs|], vs) && DecodesTo(pf, items, ws)
    ensures |ws| == |items| && DecodesTo(pf, log[..|vs + ws|], vs + ws)
  {
    hide Deserialize;
    forall i | 0 <= i < |vs + ws|
      ensures Deserialize(pf, log[i].raw) == Ok((vs + ws)[i])
    {
      if i < |vs| {
        assert log[..|vs|][i] == log[i];
      } else {
        assert items[i - |vs|] == log[i];
      }
    }
  }

  /** What a fetch serves extends the decoded prefix, and its last entry is the new cursor. */
  lemma {:induction false} ServedDecodes(pf: FloatParser, log: seq<Entry>, vs: seq<Value>, lastEntryId: string,
                      reply: QueueClient.PollReply, ws: seq<Value>)
    requires |vs| <= |log| && PositionAfter(log, lastEntryId) == |vs| && lastEntryId == LastId(log, |vs|)
    requires DecodesTo(pf, log[..|vs|], vs) && DecodesTo(pf, Serve(log, lastEntryId, reply), ws)
    ensures var items := Serve(log, lastEntryId, reply);
            && |items| == |ws| == ServedNext(reply, |log| - |vs|)
            && |vs + ws| <= |log| && DecodesTo(pf, log[..|vs + ws|], vs + ws)
            && LastId(log, |vs + ws|) == (if items == [] then lastEntryId else items[|items| - 1].id)
  {
    hide Deserialize, PositionAfter;
    DecodesMore(pf, log, vs, Serve(log, lastEntryId, reply), ws);
  }

  lemma {:induction false} UndecodableItem(
      pf: FloatParser, log: seq<Entry>, lastEntryId: string, reply: QueueClient.PollReply)
    requires SomeUndecodable(pf, Serve(log, lastEntryId, reply))
    ensures SomeUndecodable(pf, log)
  {
    hide Deserialize, PositionAfter;
    var start, items := PositionAfter(log, lastEntryId), Serve(log, lastEntryId, reply);
    var k :| 0 <= k < |items| && Deserialize(pf, items[k].raw).Err?;
    assert log[start + k] == items[k];
  }

  lemma {:induction false} DeserializeError(pf: FloatParser, b: bytes)
    requires Deserialize(pf, b).Err?
    ensures Deserialize(pf, b).error == Serialization
  {
    hide Run;
  }
}
