/** Standard output and standard input of a sandbox process: a reader that drains chunk by chunk, and
    a writer that tracks the offset of what the server has acknowledged. */
module ProcessStreams {
  import opened Bytes
  import opened Common

  // ---- Reading ----

  /** The server's answer to one fetch: a chunk, the end of the stream, or an error. */
  type ChunkReply = Result<Option<bytes>>

  /** An absent or an empty chunk ends the stream. */
  predicate IsEof(reply: ChunkReply) {
    reply == Ok(None) || reply == Ok(Some([]))
  }

  function Chunk(reply: ChunkReply): bytes {
    match reply case Ok(Some(data)) => data case _ => []
  }

  /** All bytes of a run of fetches. */
  function Chunks(replies: seq<ChunkReply>): bytes {
    if replies == [] then [] else Chunks(replies[..|replies| - 1]) + Chunk(replies[|replies| - 1])
  }

  class ContainerProcessReader {
    var buffer: bytes
    var bufPos: nat
    var eof: bool

    /** The bytes handed to the caller, and the replies of the fetches made, since construction. */
    ghost var delivered: bytes
    ghost var fetched: seq<ChunkReply>

    ghost predicate Valid()
      reads this
    {
      && (bufPos < |buffer| || (buffer == [] && bufPos == 0))
      && delivered + buffer[bufPos..] == Chunks(fetched)
      && (forall i :: 0 <= i < |fetched| && IsEof(fetched[i]) ==> eof && i == |fetched| - 1)
    }

    constructor (ignored: bool)
      ensures Valid() && eof == ignored && buffer == [] && delivered == [] && fetched == []
    {
      buffer, bufPos, eof, delivered, fetched := [], 0, ignored, [], [];
    }

    /** `reply` is what the server would answer to a fetch now. The read takes from the buffer if it
        holds anything, else makes one fetch unless the stream has ended. It fills as much of `buf`
        as it can from that one source and touches nothing beyond. */
    method Read(buf: array<byte>, reply: ChunkReply) returns (r: Result<nat>)
      requires Valid()
      modifies this, buf
      ensures Valid()
      ensures fetched == if old(buffer) == [] && !old(eof) then old(fetched) + [reply] else old(fetched)
      ensures eof <==> old(eof) || (old(buffer) == [] && IsEof(reply))
      ensures r.Err? <==> old(buffer) == [] && !old(eof) && reply.Err?
      ensures r.Err? ==> r.error == reply.error
      ensures var source := if old(buffer) != [] then old(buffer[bufPos..])
                            else if old(eof) then [] else Chunk(reply);
              var n := if r.Ok? then r.value else 0;
              && n == Min(buf.Length, |source|)
              && buf[..n] == source[..n] && buf[n..] == old(buf[n..])
              && buffer[bufPos..] == source[n..]
      ensures delivered == old(delivered) + buf[..if r.Ok? then r.value else 0]
      ensures old(buffer) == [] && !old(eof) && reply.Ok? && reply.value.Some? ==>
                var data := reply.value.value;
                r.Ok? && buf[..r.value] + buffer[bufPos..] == data && (data == [] ==> eof)
      ensures old(buffer) == [] && !old(eof) && reply == Ok(None) ==> eof && buffer == [] && r == Ok(0)
      ensures old(buffer) == [] && !old(eof) && reply.Err? ==> !eof && buffer == []
    {
      hide Chunks;
      if bufPos < |buffer| {
        var n := CopyPrefix(buf, buffer[bufPos..]);
        SplitPrefix(delivered, buffer[bufPos..], n);
        delivered := delivered + buf[..n];
        assert buffer[bufPos..][n..] == buffer[bufPos + n..];
        bufPos := bufPos + n;
        if bufPos == |buffer| {
          buffer, bufPos := [], 0;
        }
        return Ok(n);
      }
      if eof {
        return Ok(0);
      }
      OneMoreChunk(fetched, reply);
      fetched := fetched + [reply];
      match reply {
        case Err(e) =>
          return Err(e);
        case Ok(None) =>
          eof := true;
          return Ok(0);
        case Ok(Some(data)) =>
          if data == [] {
            eof := true;
            return Ok(0);
          }
          var n := CopyPrefix(buf, data);
          SplitPrefix(delivered, data, n);
          delivered := delivered + buf[..n];
          if n < |data| {
            buffer, bufPos := data, n;
          }
          return Ok(n);
      }
    }
  }

  lemma {:induction false} SplitPrefix(before: bytes, source: bytes, n: nat)
    requires n <= |source|
    ensures before + source[..n] + source[n..] == before + source
  {
  }

  lemma {:induction false} OneMoreChunk(replies: seq<ChunkReply>, reply: ChunkReply)
    ensures Chunks(replies + [reply]) == Chunks(replies) + Chunk(reply)
  {
    assert (replies + [reply])[..|replies|] == replies;
  }

  /** Copies as much of `source` as fits into the front of `buf`. */
  method CopyPrefix(buf: array<byte>, source: bytes) returns (n: nat)
    modifies buf
    ensures n == Min(buf.Length, |source|)
    ensures buf[..n] == source[..n] && buf[n..] == old(buf[n..])
  {
    n := Min(buf.Length, |source|);
    for i := 0 to n
      invariant buf[..i] == source[..i]
      invariant buf[i..] == old(buf[i..])
    {
      buf[i] := source[i];
    }
  }

  // ---- Runs of reads ----

  /** What a run of reads has returned, what it has left in the buffer, how many fetches it made, and
      whether it has seen the end of the stream. */
  datatype Reading = Reading(outcomes: seq<Result<bytes>>, left: bytes, fetches: nat, eof: bool)

  /** One read of up to `size` bytes, given what the server would answer to a fetch. */
  function ReadNext(before: Reading, size: nat, reply: ChunkReply): Reading {
    var fetching := before.left == [] && !before.eof;
    var source := if fetching then Chunk(reply) else before.left;
    var n := Min(size, |source|);
    Reading(
      before.outcomes + [if fetching && reply.Err? then Err(reply.error) else Ok(source[..n])],
      source[n..],
      before.fetches + (if fetching then 1 else 0),
      before.eof || (fetching && IsEof(reply)))
  }

  /** A run of reads, one for each size; each fetch gets the server's next answer. */
  function ReadRun(sizes: seq<nat>, replies: seq<ChunkReply>, ignored: bool): (r: Reading)
    requires |replies| >= |sizes|
    ensures |r.outcomes| == |sizes| && r.fetches <= |sizes|
  {
    if sizes == [] then Reading([], [], 0, ignored)
    else
      var before := ReadRun(sizes[..|sizes| - 1], replies, ignored);
      ReadNext(before, sizes[|sizes| - 1], replies[before.fetches])
  }

  function Delivered(outcomes: seq<Result<bytes>>): bytes {
    if outcomes == [] then []
    else Delivered(outcomes[..|outcomes| - 1]) + match outcomes[|outcomes| - 1] case Ok(b) => b case Err(_) => []
  }

  /** Each read fits its buffer, and an empty one into a non-empty buffer means that the stream ended. */
  ghost predicate FittingReads(sizes: seq<nat>, outcomes: seq<Result<bytes>>, ended: bool) {
    |outcomes| <= |sizes| &&
    forall i :: 0 <= i < |outcomes| && outcomes[i].Ok? ==>
      |outcomes[i].value| <= sizes[i] && (sizes[i] > 0 && outcomes[i].value == [] ==> ended)
  }

  /** How many errors the reads returned, and how many the server did. */
  function Errors<T>(rs: seq<Result<T>>): nat {
    if rs == [] then 0 else Errors(rs[..|rs| - 1]) + if rs[|rs| - 1].Err? then 1 else 0
  }

  /** What was delivered and what is still buffered are together exactly what was fetched, in order;
      and each error fetched was returned once. */
  ghost predicate Conserved(replies: seq<ChunkReply>, r: Reading) {
    && r.fetches <= |replies|
    && Delivered(r.outcomes) + r.left == Chunks(replies[..r.fetches])
    && Errors(r.outcomes) == Errors(replies[..r.fetches])
  }

  /** Nothing was fetched after the end of the stream; and once the end has been seen, everything has
      been delivered. */
  ghost predicate EndKept(replies: seq<ChunkReply>, ignored: bool, r: Reading) {
    && r.fetches <= |replies|
    && (r.eof <==> ignored || (r.fetches > 0 && IsEof(replies[r.fetches - 1])))
    && (forall k :: 0 <= k < r.fetches - 1 ==> replies[k] != Ok(None) && replies[k] != Ok(Some([])))
    && (r.eof ==> r.left == [])
    && (ignored ==> r.fetches == 0)
  }

  /** Any sequence of reads with buffers of any sizes, against any server, conserves the stream. */
  lemma {:induction false} ReadsConserve(sizes: seq<nat>, replies: seq<ChunkReply>, ignored: bool)
    requires |replies| >= |sizes|
    ensures var r := ReadRun(sizes, replies, ignored);
            Conserved(replies, r) && EndKept(replies, ignored, r) && FittingReads(sizes, r.outcomes, r.eof)
  {
    if sizes == [] {
      assert replies[..0] == [];
    } else {
      hide Conserved, EndKept, FittingReads, ReadNext, Delivered, Chunks, Errors;
      var n := |sizes| - 1;
      ReadsConserve(sizes[..n], replies, ignored);
      var before := ReadRun(sizes[..n], replies, ignored);
      ReadConserves(before, sizes[n], replies);
      EndStaysKept(before, sizes[n], replies, ignored);
      ReadFits(before, sizes, replies[before.fetches]);
    }
  }

  lemma {:induction false} ReadConserves(before: Reading, size: nat, replies: seq<ChunkReply>)
    requires Conserved(replies, before) && before.fetches < |replies|
    ensures Conserved(replies, ReadNext(before, size, replies[before.fetches]))
  {
    hide Chunks, Delivered, Errors, ReadNext;
    var k := before.fetches;
    var after := ReadNext(before, size, replies[k]);
    ReadKeepsBytes(before, size, replies[k], Delivered(before.outcomes));
    var outcome := after.outcomes[|before.outcomes|];
    OneMorePiece(before.outcomes, outcome);
    OneMoreError(before.outcomes, outcome);
    if after.fetches > k {
      assert replies[..k + 1] == replies[..k] + [replies[k]];
      OneMoreChunk(replies[..k], replies[k]);
      OneMoreError(replies[..k], replies[k]);
    }
  }

  lemma {:induction false} EndStaysKept(before: Reading, size: nat, replies: seq<ChunkReply>, ignored: bool)
    requires EndKept(replies, ignored, before) && before.fetches < |replies|
    ensures EndKept(replies, ignored, ReadNext(before, size, replies[before.fetches]))
  {
  }

  lemma {:induction false} ReadFits(before: Reading, sizes: seq<nat>, reply: ChunkReply)
    requires |before.outcomes| == |sizes| - 1 && FittingReads(sizes[..|sizes| - 1], before.outcomes, before.eof)
    ensures var after := ReadNext(before, sizes[|sizes| - 1], reply); FittingReads(sizes, after.outcomes, after.eof)
  {
  }

  /** One read moves bytes from its source to the caller and loses none. */
  lemma {:induction false} ReadKeepsBytes(before: Reading, size: nat, reply: ChunkReply, delivered: bytes)
    ensures var after := ReadNext(before, size, reply);
            && before.fetches <= after.fetches <= before.fetches + 1
            && |after.outcomes| == |before.outcomes| + 1
            && var outcome := after.outcomes[|before.outcomes|];
            && after.outcomes == before.outcomes + [outcome]
            && (outcome.Err? <==> after.fetches > before.fetches && reply.Err?)
            && delivered + (match outcome case Ok(b) => b case Err(_) => []) + after.left
               == delivered + before.left + if after.fetches > before.fetches then Chunk(reply) else []
  {
    var fetching := before.left == [] && !before.eof;
    var source := if fetching then Chunk(reply) else before.left;
    SplitPrefix(delivered, source, Min(size, |source|));
  }

  lemma {:induction false} OneMorePiece(outcomes: seq<Result<bytes>>, piece: Result<bytes>)
    ensures Delivered(outcomes + [piece]) == Delivered(outcomes) + match piece case Ok(b) => b case Err(_) => []
  {
    assert (outcomes + [piece])[..|outcomes|] == outcomes;
  }

  lemma {:induction false} OneMoreError<T>(rs: seq<Result<T>>, r: Result<T>)
    ensures Errors(rs + [r]) == Errors(rs) + if r.Err? then 1 else 0
  {
    assert (rs + [r])[..|rs|] == rs;
  }

  /** One read into a new buffer. */
  method ReadOnce(reader: ContainerProcessReader, size: nat, reply: ChunkReply, ghost before: Reading)
    returns (piece: Result<bytes>, fetching: bool)
    requires reader.Valid() && reader.buffer[reader.bufPos..] == before.left && reader.eof == before.eof
    modifies reader
    ensures reader.Valid()
    ensures var after := ReadNext(before, size, reply);
            && reader.buffer[reader.bufPos..] == after.left && reader.eof == after.eof
            && after.outcomes == before.outcomes + [piece]
            && after.fetches == before.fetches + if fetching then 1 else 0
  {
    hide Chunks;
    var buf := new byte[size](_ => 0);
    fetching := reader.buffer == [] && !reader.eof;
    var n := reader.Read(buf, reply);
    piece := match n case Ok(k) => Ok(buf[..k]) case Err(e) => Err(e);
  }

  /** A sequence of reads is the run above, and so conserves the stream. */
  method ReadMany(sizes: seq<nat>, replies: seq<ChunkReply>, ignored: bool)
    returns (outcomes: seq<Result<bytes>>, left: bytes, fetches: nat)
    requires |replies| >= |sizes|
    ensures var run := ReadRun(sizes, replies, ignored);
            outcomes == run.outcomes && left == run.left && fetches == run.fetches
    ensures |outcomes| == |sizes| && fetches <= |sizes|
    ensures FittingReads(sizes, outcomes, ignored || (fetches > 0 && IsEof(replies[fetches - 1])))
    ensures Delivered(outcomes) + left == Chunks(replies[..fetches])
    ensures forall k :: 0 <= k < fetches - 1 ==> !IsEof(replies[k])
    ensures fetches > 0 && IsEof(replies[fetches - 1]) ==> left == []
    ensures ignored ==> fetches == 0
  {
    hide Chunks, Delivered, Errors, FittingReads, ReadNext;
    var reader := new ContainerProcessReader(ignored);
    outcomes, fetches := [], 0;
    for i := 0 to |sizes|
      invariant fresh(reader) && reader.Valid()
      invariant ReadRun(sizes[..i], replies, ignored)
             == Reading(outcomes, reader.buffer[reader.bufPos..], fetches, reader.eof)
    {
      assert sizes[..i + 1][..i] == sizes[..i];
      var piece, fetching := ReadOnce(reader, sizes[i], replies[fetches], ReadRun(sizes[..i], replies, ignored));
      outcomes := outcomes + [piece];
      if fetching {
        fetches := fetches + 1;
      }
    }
    left := reader.buffer[reader.bufPos..];
    assert sizes[..|sizes|] == sizes;
    ReadsConserve(sizes, replies, ignored);
  }

  // ---- Writing ----

  /** A request to the server's stdin, with the server's answer. */
  datatype Sent = Sent(offset: nat, data: bytes, eof: bool, acked: bool)

  /** The bytes of the acknowledged writes, in order. */
  function Acked(log: seq<Sent>): bytes {
    if log == [] then []
    else
      var last := log[|log| - 1];
      Acked(log[..|log| - 1]) + if last.acked then last.data else []
  }

  /** Every request goes to the offset right after the bytes acknowledged before it, so acknowledged
      writes tile the stream from 0; an EOF marker carries no data; and an acknowledged EOF is the
      last request. */
  ghost predicate Tiled(log: seq<Sent>) {
    forall i :: 0 <= i < |log| ==> Placed(log, i)
  }

  ghost predicate Placed(log: seq<Sent>, i: nat)
    requires i < |log|
  {
    && log[i].offset == |Acked(log[..i])|
    && (if log[i].eof then log[i].data == [] else log[i].data != [])
    && (log[i].eof && log[i].acked ==> i == |log| - 1)
  }

  datatype WriteResult = Written(n: nat) | BrokenPipe | Failed

  class ContainerProcessStdin {
    var offset: nat
    var closed: bool

    /** Every request sent since construction. */
    ghost var log: seq<Sent>

    ghost predicate Valid()
      reads this
    {
      && offset == |Acked(log)| && Tiled(log)
      && (closed <==> log != [] && log[|log| - 1].eof && log[|log| - 1].acked)
    }

    constructor ()
      ensures Valid() && log == [] && !closed
    {
      NothingAcked();
      offset, closed, log := 0, false, [];
    }

    /** Sends EOF at the current offset, once: a failed attempt can be repeated, a successful one not. */
    method Close(acked: bool) returns (ok: bool)
      requires Valid()
      modifies this
      ensures Valid() && offset == old(offset)
      ensures log == if old(closed) then old(log) else old(log) + [Sent(old(offset), [], true, acked)]
      ensures ok <==> old(closed) || acked
      ensures closed <==> ok
    {
      hide Tiled, Acked;
      if closed {
        return true;
      }
      Extended(log, Sent(offset, [], true, acked));
      log := log + [Sent(offset, [], true, acked)];
      if !acked {
        return false;
      }
      closed := true;
      ok := true;
    }

    /** After close a write fails without a request; an empty write succeeds without one. */
    method Write(buf: bytes, acked: bool) returns (r: WriteResult)
      requires Valid()
      modifies this
      ensures Valid() && closed == old(closed)
      ensures log == if closed || buf == [] then old(log) else old(log) + [Sent(old(offset), buf, false, acked)]
      ensures r == if closed then BrokenPipe else if buf == [] || acked then Written(|buf|) else Failed
      ensures offset == old(offset) + if r.Written? then r.n else 0
    {
      hide Tiled, Acked;
      if closed {
        return BrokenPipe;
      }
      if buf == [] {
        return Written(0);
      }
      Extended(log, Sent(offset, buf, false, acked));
      log := log + [Sent(offset, buf, false, acked)];
      if !acked {
        return Failed;
      }
      offset := offset + |buf|;
      r := Written(|buf|);
    }
  }

  /** A well-placed request after a log that has no acknowledged EOF. */
  lemma {:induction false} Extended(log: seq<Sent>, next: Sent)
    requires Tiled(log) && (log != [] ==> !(log[|log| - 1].eof && log[|log| - 1].acked))
    requires next.offset == |Acked(log)| && (if next.eof then next.data == [] else next.data != [])
    ensures Tiled(log + [next])
    ensures Acked(log + [next]) == Acked(log) + if next.acked then next.data else []
  {
    hide Acked;
    OneMoreSent(log, next);
    var all := log + [next];
    forall i | 0 <= i < |all|
      ensures Placed(all, i)
    {
      assert all[..i] == if i < |log| then log[..i] else log;
      if i < |log| {
        assert Placed(log, i);
      }
    }
  }

  lemma {:induction false} OneMoreSent(log: seq<Sent>, next: Sent)
    ensures Acked(log + [next]) == Acked(log) + if next.acked then next.data else []
  {
    assert (log + [next])[..|log|] == log;
  }

  lemma {:induction false} NothingAcked()
    ensures Acked([]) == []
  {
  }

  // ---- Runs of writes and closes ----

  datatype StdinCall = WriteCall(data: bytes, writeAcked: bool) | CloseCall(closeAcked: bool)

  /** The last request is an acknowledged EOF. */
  predicate Closed(log: seq<Sent>) {
    log != [] && log[|log| - 1].eof && log[|log| - 1].acked
  }

  /** The request that a call adds to the log, if any. */
  function Request(log: seq<Sent>, call: StdinCall): seq<Sent> {
    if Closed(log) then []
    else
      match call
      case WriteCall(data, acked) => if data == [] then [] else [Sent(|Acked(log)|, data, false, acked)]
      case CloseCall(acked) => [Sent(|Acked(log)|, [], true, acked)]
  }

  predicate Succeeds(log: seq<Sent>, call: StdinCall) {
    match call
    case WriteCall(data, acked) => !Closed(log) && (data == [] || acked)
    case CloseCall(acked) => Closed(log) || acked
  }

  /** All requests of a run of calls, in order. */
  function Requests(calls: seq<StdinCall>): seq<Sent> {
    if calls == [] then []
    else
      var log := Requests(calls[..|calls| - 1]);
      log + Request(log, calls[|calls| - 1])
  }

  /** The data of the writes acknowledged before the first acknowledged close. */
  function Written(calls: seq<StdinCall>): bytes {
    if calls == [] then []
    else
      match calls[0]
      case WriteCall(data, acked) => (if acked then data else []) + Written(calls[1..])
      case CloseCall(acked) => if acked then [] else Written(calls[1..])
  }

  predicate Closes(calls: seq<StdinCall>) {
    CloseCall(true) in calls
  }

  lemma {:induction false} OneMoreCall(calls: seq<StdinCall>, call: StdinCall)
    ensures Written(calls + [call])
         == Written(calls) + if !Closes(calls) && call.WriteCall? && call.writeAcked then call.data else []
  {
    var all := calls + [call];
    if calls == [] {
      assert all[1..] == [];
    } else {
      assert all[1..] == calls[1..] + [call];
      assert calls == [calls[0]] + calls[1..];
      OneMoreCall(calls[1..], call);
    }
  }

  /** Any run of writes and closes with arbitrary failures: the requests tile the stream; what was
      acknowledged is exactly the data written before the first successful close, in order; and that
      close carries the final offset and is the last request. */
  lemma {:induction false} RequestsTile(calls: seq<StdinCall>)
    ensures var log := Requests(calls);
            && Tiled(log) && Acked(log) == Written(calls)
            && (Closed(log) <==> Closes(calls))
            && (Closed(log) ==> log[|log| - 1] == Sent(|Written(calls)|, [], true, true))
  {
    hide Tiled, Acked, Closed, Request, Written, Closes;
    if calls == [] {
      NothingSent();
    } else {
      var init, call := calls[..|calls| - 1], calls[|calls| - 1];
      assert calls == init + [call];
      RequestsTile(init);
      RequestTiles(Requests(init), init, call);
    }
  }

  lemma {:induction false} RequestTiles(log: seq<Sent>, calls: seq<StdinCall>, call: StdinCall)
    requires Tiled(log) && Acked(log) == Written(calls) && (Closed(log) <==> Closes(calls))
    requires Closed(log) ==> log[|log| - 1] == Sent(|Written(calls)|, [], true, true)
    ensures var log', calls' := log + Request(log, call), calls + [call];
            && Tiled(log') && Acked(log') == Written(calls')
            && (Closed(log') <==> Closes(calls'))
            && (Closed(log') ==> log'[|log'| - 1] == Sent(|Written(calls')|, [], true, true))
  {
    hide Tiled, Acked, Written;
    OneMoreCall(calls, call);
    var next := Request(log, call);
    if next == [] {
      assert log + next == log;
    } else {
      assert next == [next[0]];
      Extended(log, next[0]);
    }
  }

  lemma {:induction false} NothingSent()
    ensures Tiled([]) && Acked([]) == Written([]) && !Closed([]) && !Closes([])
  {
  }

  method Perform(stdin: ContainerProcessStdin, call: StdinCall) returns (ok: bool)
    requires stdin.Valid()
    modifies stdin
    ensures stdin.Valid()
    ensures stdin.log == old(stdin.log) + Request(old(stdin.log), call)
    ensures ok <==> Succeeds(old(stdin.log), call)
  {
    hide Tiled, Acked;
    match call {
      case WriteCall(data, acked) =>
        var r := stdin.Write(data, acked);
        ok := r.Written?;
      case CloseCall(acked) =>
        ok := stdin.Close(acked);
    }
  }

  /** A run of calls sends the requests above. */
  method RunStdin(calls: seq<StdinCall>) returns (ghost log: seq<Sent>, oks: seq<bool>, offset: nat, closed: bool)
    ensures log == Requests(calls) && Tiled(log)
    ensures Acked(log) == Written(calls) && offset == |Written(calls)|
    ensures closed <==> Closes(calls)
    ensures closed ==> log != [] && log[|log| - 1] == Sent(offset, [], true, true)
    ensures |oks| == |calls|
    ensures forall i :: 0 <= i < |calls| ==> (oks[i] <==> Succeeds(Requests(calls[..i]), calls[i]))
  {
    hide Tiled, Acked, Request, Succeeds;
    var stdin := new ContainerProcessStdin();
    oks := [];
    for i := 0 to |calls|
      invariant fresh(stdin) && stdin.Valid() && stdin.log == Requests(calls[..i])
      invariant |oks| == i && forall j :: 0 <= j < i ==> (oks[j] <==> Succeeds(Requests(calls[..j]), calls[j]))
    {
      assert calls[..i + 1][..i] == calls[..i];
      var ok := Perform(stdin, calls[i]);
      oks := oks + [ok];
    }
    assert calls[..|calls|] == calls;
    RequestsTile(calls);
    log, offset, closed := stdin.log, stdin.offset, stdin.closed;
  }
}
