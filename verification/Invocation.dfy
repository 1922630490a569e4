/** Calling a remote function: polling for its output, and retrying it on internal failures. */
module Invocation {
  import opened Bytes
  import opened Common
  import opened PollTiming

  const OUTPUTS_TIMEOUT: Duration := 55_000
  const MAX_SYSTEM_RETRIES := 8

  // ---- Results ----

  datatype Status = SuccessStatus | TimeoutStatus | InternalFailureStatus | OtherStatus

  datatype DataRef = Inline(data: bytes) | InBlob(id: string)

  datatype GenericResult = GenericResult(status: Status, data: Option<DataRef>)

  datatype Format = Cbor | Pickle | Asgi | GeneratorDone | OtherFormat

  datatype Output = Output(result: Option<GenericResult>, format: Format)

  datatype InvocationResult<V> = CborValue(v: V) | Generator(data: bytes) | Null

  /** What lies outside the client: fetching a blob and decoding CBOR. */
  datatype Library<!V> = Library(blob: string -> Result<bytes>, cbor: bytes -> Option<V>)

  /** The data comes first: a blob that cannot be fetched hides the status. */
  function ProcessResult<V>(lib: Library<V>, output: Output): Result<InvocationResult<V>> {
    match output.result
    case None => Err(ModalError.Remote)
    case Some(result) =>
      var data := FetchData(lib, result.data);
      if data.Err? then Err(data.error)
      else
        match result.status
        case TimeoutStatus => Err(FunctionTimeout)
        case InternalFailureStatus => Err(InternalFailure)
        case OtherStatus => Err(ModalError.Remote)
        case SuccessStatus => DeserializeData(lib, data.value, output.format)
  }

  function FetchData<V>(lib: Library<V>, data: Option<DataRef>): Result<Option<bytes>> {
    match data
    case None => Ok(None)
    case Some(Inline(d)) => Ok(Some(d))
    case Some(InBlob(id)) => match lib.blob(id) case Ok(d) => Ok(Some(d)) case Err(e) => Err(e)
  }

  function DeserializeData<V>(lib: Library<V>, data: Option<bytes>, format: Format): Result<InvocationResult<V>> {
    match format
    case Cbor =>
      if data.None? || data.value == [] then Ok(Null)
      else (match lib.cbor(data.value) case None => Err(Serialization) case Some(v) => Ok(CborValue(v)))
    case GeneratorDone => Ok(Generator(if data.Some? then data.value else []))
    case _ => Err(Serialization)
  }

  /** These are the bytes that a result's data refers to; no data counts as none. */
  ghost predicate Holds<V>(lib: Library<V>, data: Option<DataRef>, bytes: Option<bytes>) {
    match data
    case None => bytes == None
    case Some(Inline(d)) => bytes == Some(d)
    case Some(InBlob(id)) => bytes.Some? && lib.blob(id) == Ok(bytes.value)
  }

  /** The blob cannot be fetched, with this error. */
  ghost predicate Unfetchable<V>(lib: Library<V>, data: Option<DataRef>, e: ModalError) {
    data.Some? && data.value.InBlob? && lib.blob(data.value.id) == Err(e)
  }

  /** What each output means. A missing result is a remote failure. Otherwise a blob that cannot be
      fetched gives its error, whatever the status; the status decides between the three failures;
      and only a successful result is decoded, by its format. */
  lemma {:induction false} ResultMeaning<V>(lib: Library<V>, output: Output)
    ensures var r := ProcessResult(lib, output);
            match output.result
            case None => r == Err(ModalError.Remote)
            case Some(GenericResult(status, data)) =>
              && (forall e :: Unfetchable(lib, data, e) ==> r == Err(e))
              && forall b :: Holds(lib, data, b) ==>
                   && (status == TimeoutStatus ==> r == Err(FunctionTimeout))
                   && (status == InternalFailureStatus ==> r == Err(InternalFailure))
                   && (status == OtherStatus ==> r == Err(ModalError.Remote))
                   && (status == SuccessStatus && output.format == Cbor && b in {None, Some([])} ==> r == Ok(Null))
                   && (status == SuccessStatus && output.format == Cbor && b !in {None, Some([])} ==>
                         r == match lib.cbor(b.value) case Some(v) => Ok(CborValue(v)) case None => Err(Serialization))
                   && (status == SuccessStatus && output.format == GeneratorDone ==>
                         r == Ok(Generator(if b == None then [] else b.value)))
                   && (status == SuccessStatus && output.format in {Pickle, Asgi, OtherFormat} ==>
                         r == Err(Serialization))
    ensures output.result.Some? ==>
              var data := output.result.value.data;
              (exists e :: Unfetchable(lib, data, e)) || (exists b :: Holds(lib, data, b))
  {
    if output.result.Some? {
      match output.result.value.data
      case None => assert Holds(lib, output.result.value.data, None);
      case Some(Inline(d)) => assert Holds(lib, output.result.value.data, Some(d));
      case Some(InBlob(id)) =>
        match lib.blob(id)
        case Ok(d) => assert Holds(lib, output.result.value.data, Some(d));
        case Err(e) => assert Unfetchable(lib, output.result.value.data, e);
    }
  }

  /** So a result is reported as an internal failure exactly when its status says so and its data can be
      fetched, or when fetching the data fails that way. */
  ghost predicate SaysInternalFailure<V>(lib: Library<V>, output: Output) {
    output.result.Some? &&
    var GenericResult(status, data) := output.result.value;
    || Unfetchable(lib, data, InternalFailure)
    || (status == InternalFailureStatus && exists b :: Holds(lib, data, b))
  }

  lemma {:induction false} InternalFailureMeaning<V>(lib: Library<V>, output: Output)
    ensures ProcessResult(lib, output) == Err(InternalFailure) <==> SaysInternalFailure(lib, output)
  {
    ResultMeaning(lib, output);
    hide ProcessResult, Holds;
  }

  // ---- Polling ----

  datatype Reply = Empty | Arrived(output: Output) | Fault(error: ModalError)

  type Poll = Timed<Reply>

  /** What the first non-empty reply means; with none, the wait goes on. */
  function Outcome<V>(lib: Library<V>, polls: seq<Poll>): Progress<InvocationResult<V>> {
    if polls == [] then StillRunning
    else
      match polls[0].event
      case Empty => Outcome(lib, polls[1..])
      case Arrived(output) => Returned(ProcessResult(lib, output))
      case Fault(e) => Returned(Err(e))
  }

  /** This reply is the first that is not empty. */
  ghost predicate Deciding(polls: seq<Poll>, i: nat) {
    i < |polls| && polls[i].event != Empty && forall j :: 0 <= j < i ==> polls[j].event == Empty
  }

  /** What a loop reports on a reply: an RPC error, or what the output means. */
  ghost predicate Reports<V>(lib: Library<V>, reply: Reply, r: Result<InvocationResult<V>>) {
    match reply
    case Empty => false
    case Arrived(output) => r == ProcessResult(lib, output)
    case Fault(e) => r == Err(e)
  }

  /** The report on the first reply that is not empty. */
  ghost predicate ReportsFirst<V>(lib: Library<V>, polls: seq<Poll>, r: Result<InvocationResult<V>>) {
    exists i: nat :: Deciding(polls, i) && Reports(lib, polls[i].event, r)
  }

  lemma {:induction false} FirstReplyDecides<V>(lib: Library<V>, polls: seq<Poll>)
    ensures Outcome(lib, polls) == StillRunning <==> AllEmpty(polls)
    ensures forall i: nat :: Deciding(polls, i) ==>
              Outcome(lib, polls).Returned? && Reports(lib, polls[i].event, Outcome(lib, polls).result)
    ensures !AllEmpty(polls) ==> exists i: nat :: Deciding(polls, i)
    ensures Outcome(lib, polls).Returned? ==> ReportsFirst(lib, polls, Outcome(lib, polls).result)
  {
    hide ProcessResult;
    if polls == [] {
    } else if polls[0].event == Empty {
      hide Deciding, AllEmpty, Reports;
      FirstReplyDecides(lib, polls[1..]);
      DecidingTail(polls);
      if k: nat :| Deciding(polls[1..], k) {
        assert Deciding(polls, k + 1) && polls[k + 1] == polls[1..][k];
      }
    } else {
      assert Deciding(polls, 0);
    }
  }

  lemma {:induction false} DecidingTail(polls: seq<Poll>)
    requires polls != [] && polls[0].event == Empty
    ensures forall i: nat :: Deciding(polls, i) ==> i > 0 && Deciding(polls[1..], i - 1)
    ensures forall i: nat :: Deciding(polls[1..], i) ==> Deciding(polls, i + 1)
    ensures forall i: nat :: Deciding(polls, i) ==> i < |polls|
    ensures AllEmpty(polls) <==> AllEmpty(polls[1..])
  {
    var tail := polls[1..];
    assert forall j :: 0 <= j < |tail| ==> polls[j + 1] == tail[j];
    assert forall j :: 0 < j < |polls| ==> polls[j] == tail[j - 1];
  }

  /** The first reply that is not empty is an internal failure: as an RPC error, or by its output. */
  ghost predicate FailsInternally<V>(lib: Library<V>, polls: seq<Poll>) {
    exists i: nat :: Deciding(polls, i) &&
      match polls[i].event
      case Arrived(output) => SaysInternalFailure(lib, output)
      case Fault(e) => e == InternalFailure
      case Empty => false
  }

  lemma {:induction false} InternallyMeaning<V>(lib: Library<V>, polls: seq<Poll>)
    ensures Outcome(lib, polls) == Returned(Err(InternalFailure)) <==> FailsInternally(lib, polls)
  {
    FirstReplyDecides(lib, polls);
    forall output: Output
      ensures ProcessResult(lib, output) == Err(InternalFailure) <==> SaysInternalFailure(lib, output)
    {
      InternalFailureMeaning(lib, output);
    }
    hide Outcome, ProcessResult, SaysInternalFailure;
    if !AllEmpty(polls) {
      var i: nat :| Deciding(polls, i);
      OnlyOneDecides(polls);
    }
  }

  lemma {:induction false} OnlyOneDecides(polls: seq<Poll>)
    ensures forall i: nat, j: nat :: Deciding(polls, i) && Deciding(polls, j) ==> i == j
  {
  }

  /** The waits follow the shared plan; empty replies are polled past until the timeout is reached;
      anything else decides the result at once. */
  method PollFunctionOutput<V>(lib: Library<V>, timeout: Option<Duration>, polls: seq<Poll>)
    returns (r: Progress<InvocationResult<V>>, waits: seq<Duration>)
    ensures Planned(OUTPUTS_TIMEOUT, timeout, Durations(polls), waits)
    ensures r == StillRunning ==> |waits| == |polls| && !Expired(timeout, Durations(polls), waits)
    ensures r == if Expired(timeout, Durations(polls), waits) && Outcome(lib, polls[..|waits|]) == StillRunning
                 then Returned(Err(FunctionTimeout)) else Outcome(lib, polls[..|waits|])
    ensures timeout.None? ==> r == Outcome(lib, polls)
    ensures r.Returned? && !Expired(timeout, Durations(polls), waits) ==>
              Deciding(polls, |waits| - 1) && Reports(lib, polls[|waits| - 1].event, r.result)
    ensures forall j :: 0 <= j < |waits| ==> waits[j] <= 55_000 && (timeout.None? ==> waits[j] == 55_000)
  {
    hide ProcessResult;
    waits := [];
    var pollTimeout := if timeout.Some? then Min(timeout.value, OUTPUTS_TIMEOUT) else OUTPUTS_TIMEOUT;
    var now := 0;
    for i := 0 to |polls|
      invariant |waits| == i && now == Elapsed(Durations(polls), i)
      invariant pollTimeout == if timeout.Some? then Min(OUTPUTS_TIMEOUT, timeout.value - now) else OUTPUTS_TIMEOUT
      invariant timeout.Some? && i > 0 ==> now < timeout.value
      invariant Planned(OUTPUTS_TIMEOUT, timeout, Durations(polls), waits)
      invariant AllEmpty(polls[..i])
    {
      var poll := polls[i];
      waits := waits + [pollTimeout];
      now := now + poll.elapsed;
      FirstAnswer(lib, polls, i);
      match poll.event {
        case Fault(e) =>
          return Returned(Err(e)), waits;
        case Arrived(output) =>
          return Returned(ProcessResult(lib, output)), waits;
        case Empty =>
          EmptyOutcome(lib, polls[..i + 1]);
          if timeout.Some? {
            if now >= timeout.value {
              return Returned(Err(FunctionTimeout)), waits;
            }
            pollTimeout := Min(OUTPUTS_TIMEOUT, timeout.value - now);
          }
      }
    }
    assert polls[..|polls|] == polls;
    EmptyOutcome(lib, polls);
    r := StillRunning;
  }

  predicate AllEmpty(polls: seq<Poll>) {
    forall i :: 0 <= i < |polls| ==> polls[i].event == Empty
  }

  lemma {:induction false} EmptyOutcome<V>(lib: Library<V>, polls: seq<Poll>)
    requires AllEmpty(polls)
    ensures Outcome(lib, polls) == StillRunning
    decreases |polls|
  {
    if polls == [] {
    } else {
      EmptyOutcome(lib, polls[1..]);
    }
  }

  /** After empty replies, the next one decides for every longer script. */
  lemma {:induction false} FirstAnswer<V>(lib: Library<V>, polls: seq<Poll>, i: nat)
    requires i < |polls| && AllEmpty(polls[..i])
    ensures !polls[i].event.Empty? ==>
              Outcome(lib, polls[..i + 1]) == Outcome(lib, [polls[i]]) == Outcome(lib, polls)
    ensures Outcome(lib, [polls[i]])
         == match polls[i].event
            case Empty => StillRunning
            case Arrived(output) => Returned(ProcessResult(lib, output))
            case Fault(e) => Returned(Err(e))
    decreases i
  {
    hide ProcessResult;
    if i == 0 {
    } else {
      assert polls[..i][0] == polls[0];
      assert polls[1..][..i - 1] == polls[..i][1..];
      FirstAnswer(lib, polls[1..], i - 1);
      assert polls[..i + 1][1..] == polls[1..][..i];
    }
  }

  // ---- Invocations ----

  datatype MapResponse = MapResponse(functionCallId: string, functionCallJwt: string, inputJwts: seq<string>)

  datatype RetryRequest = RetryRequest(functionCallJwt: string, inputJwt: string, input: bytes, retryCount: nat)

  class ControlPlaneInvocation {
    const functionCallId: string
    const input: Option<bytes>
    const functionCallJwt: string
    var inputJwt: string

    constructor (functionCallId: string, input: Option<bytes>, functionCallJwt: string, inputJwt: string)
      ensures this.functionCallId == functionCallId && this.input == input
      ensures this.functionCallJwt == functionCallJwt && this.inputJwt == inputJwt
    {
      this.functionCallId, this.input := functionCallId, input;
      this.functionCallJwt, this.inputJwt := functionCallJwt, inputJwt;
    }

    /** From the response to FunctionMap; without a pipelined input the token is empty. */
    static method Create(input: bytes, response: MapResponse) returns (inv: ControlPlaneInvocation)
      ensures fresh(inv)
      ensures inv.functionCallId == response.functionCallId && inv.input == Some(input)
      ensures inv.functionCallJwt == response.functionCallJwt
      ensures inv.inputJwt == NextJwt("", Ok(response.inputJwts))
      ensures inv.inputJwt == if response.inputJwts == [] then "" else response.inputJwts[0]
    {
      var jwt := if response.inputJwts == [] then "" else response.inputJwts[0];
      inv := new ControlPlaneInvocation(response.functionCallId, Some(input), response.functionCallJwt, jwt);
    }

    /** Sends the input again under the latest token; a response with tokens replaces it. An invocation
        that was only looked up has no input to send. */
    method Retry(retryCount: nat, response: Result<seq<string>>) returns (r: Result<()>, sent: Option<RetryRequest>)
      modifies this
      ensures input.None? ==> r == Err(Other) && sent == None && inputJwt == old(inputJwt)
      ensures input.Some? ==>
                && sent == Some(RetryRequest(functionCallJwt, old(inputJwt), input.value, retryCount))
                && inputJwt == NextJwt(old(inputJwt), response)
                && r == (if response.Ok? then Ok(()) else Err(response.error))
    {
      if input.None? {
        return Err(Other), None;
      }
      sent := Some(RetryRequest(functionCallJwt, inputJwt, input.value, retryCount));
      if response.Err? {
        return Err(response.error), sent;
      }
      if response.value != [] {
        inputJwt := response.value[0];
      }
      r := Ok(());
    }
  }

  /** The token after a response: its first one, or the old one. */
  function NextJwt(jwt: string, response: Result<seq<string>>): string {
    if response.Ok? && response.value != [] then response.value[0] else jwt
  }

  datatype AttemptRetry = AttemptRetry(functionId: string, input: bytes, attemptToken: string)

  class InputPlaneInvocation {
    const functionId: string
    const input: bytes
    var attemptToken: string

    constructor (functionId: string, input: bytes, attemptToken: string)
      ensures this.functionId == functionId && this.input == input && this.attemptToken == attemptToken
    {
      this.functionId, this.input, this.attemptToken := functionId, input, attemptToken;
    }

    /** Each retry sends the same input under the token of the attempt before it. */
    method Retry(response: Result<string>) returns (r: Result<()>, sent: AttemptRetry)
      modifies this
      ensures sent == AttemptRetry(functionId, input, old(attemptToken))
      ensures attemptToken == if response.Ok? then response.value else old(attemptToken)
      ensures r == if response.Ok? then Ok(()) else Err(response.error)
    {
      sent := AttemptRetry(functionId, input, attemptToken);
      if response.Err? {
        return Err(response.error), sent;
      }
      attemptToken := response.value;
      r := Ok(());
    }
  }

  // ---- Remote calls ----

  /** One round: the replies while waiting for the output, and the answer to the retry that may follow. */
  datatype Round = Round(polls: seq<Poll>, retryResponse: Result<seq<string>>)

  /** The token that the `k`-th retry presents: the one from the latest response that had any. */
  function JwtFor(first: string, rounds: seq<Round>, k: nat): string
    requires k <= |rounds|
  {
    if k == 0 then first else NextJwt(JwtFor(first, rounds, k - 1), rounds[k - 1].retryResponse)
  }

  /** The token presented is the first one of the latest non-empty response, or else the original. */
  lemma {:induction false} JwtIsLatest(first: string, rounds: seq<Round>, m: nat, k: nat)
    requires m <= k <= |rounds|
    requires forall j :: m <= j < k ==> rounds[j].retryResponse.Err? || rounds[j].retryResponse.value == []
    ensures m == 0 ==> JwtFor(first, rounds, k) == first
    ensures m > 0 && rounds[m - 1].retryResponse.Ok? && rounds[m - 1].retryResponse.value != [] ==>
              JwtFor(first, rounds, k) == rounds[m - 1].retryResponse.value[0]
    decreases k
  {
    if m >= k {
    } else {
      JwtIsLatest(first, rounds, m, k - 1);
    }
  }

  /** How a call that has waited `awaits` times and sent `retries` retries can have ended. */
  ghost predicate EndsRight<V>(
      lib: Library<V>, rounds: seq<Round>, awaits: nat, retries: nat, r: Progress<InvocationResult<V>>)
    requires awaits <= |rounds|
  {
    if awaits == 0 then r == StillRunning && rounds == [] && retries == 0
    else
      var last := Outcome(lib, rounds[awaits - 1].polls);
      if last != Returned(Err(InternalFailure)) then r == last && retries == awaits - 1
      else if awaits == MAX_SYSTEM_RETRIES + 2 then r == last && retries == awaits - 1
      else
        && retries == awaits
        && match rounds[awaits - 1].retryResponse
           case Err(e) => r == Returned(Err(e))
           case Ok(_) => r == StillRunning && awaits == |rounds|
  }

  /** Every one of the first `n` waits ended in an internal failure. */
  ghost predicate AllFailed<V>(lib: Library<V>, rounds: seq<Round>, n: nat) {
    n <= |rounds| && forall j :: 0 <= j < n ==> Outcome(lib, rounds[j].polls) == Returned(Err(InternalFailure))
  }

  /** Retries number themselves from 0 and carry the same input and the latest token. */
  ghost predicate GoodRetries(response: MapResponse, input: bytes, rounds: seq<Round>, retries: seq<RetryRequest>) {
    |retries| <= |rounds| &&
    forall k :: 0 <= k < |retries| ==>
      retries[k] == RetryRequest(
        response.functionCallJwt, JwtFor(NextJwt("", Ok(response.inputJwts)), rounds, k), input, k)
  }

  lemma {:induction false} OneMoreRetry(
      response: MapResponse, input: bytes, rounds: seq<Round>, retries: seq<RetryRequest>)
    requires GoodRetries(response, input, rounds, retries) && |retries| < |rounds|
    ensures var jwt := JwtFor(NextJwt("", Ok(response.inputJwts)), rounds, |retries|);
            GoodRetries(response, input, rounds,
                        retries + [RetryRequest(response.functionCallJwt, jwt, input, |retries|)])
  {
    hide JwtFor, NextJwt;
  }

  /** At most ten waits and nine retries; retries count up from 0 with the same input and the latest
      token; every wait before the last ended in an internal failure, and any other result is returned
      at once. A web endpoint, or input that cannot be built, sends nothing. */
  method Remote<V>(lib: Library<V>, webUrl: string, input: Result<bytes>, mapResponse: Result<MapResponse>,
                   rounds: seq<Round>)
    returns (r: Progress<InvocationResult<V>>, awaits: nat, retries: seq<RetryRequest>)
    ensures |retries| <= awaits <= |rounds| && awaits <= 10 && |retries| <= 9
    ensures forall k :: 0 <= k < |retries| ==> FailsInternally(lib, rounds[k].polls)
    ensures |retries| < awaits < 10 ==> !FailsInternally(lib, rounds[awaits - 1].polls)
    ensures |retries| < awaits && r.Returned? ==>
              ReportsFirst(lib, rounds[awaits - 1].polls, r.result)
    ensures webUrl != "" ==> r == Returned(Err(Invalid)) && awaits == 0 && retries == []
    ensures webUrl == "" && input.Err? ==> r == Returned(Err(input.error)) && awaits == 0 && retries == []
    ensures webUrl == "" && input.Ok? && mapResponse.Err? ==>
              r == Returned(Err(mapResponse.error)) && awaits == 0 && retries == []
    ensures webUrl == "" && input.Ok? && mapResponse.Ok? ==>
              && EndsRight(lib, rounds, awaits, |retries|, r)
              && AllFailed(lib, rounds, |retries|)
              && GoodRetries(mapResponse.value, input.value, rounds, retries)
  {
    hide Outcome, Planned, Expired, AllFailed, GoodRetries, JwtFor, NextJwt, FailsInternally,
      ReportsFirst;
    awaits, retries := 0, [];
    if webUrl != "" { return Returned(Err(Invalid)), awaits, retries; }
    if input.Err? { return Returned(Err(input.error)), awaits, retries; }
    if mapResponse.Err? { return Returned(Err(mapResponse.error)), awaits, retries; }
    var invocation := ControlPlaneInvocation.Create(input.value, mapResponse.value);
    var retryCount := 0;
    ghost var first := NextJwt("", Ok(mapResponse.value.inputJwts));
    assert GoodRetries(mapResponse.value, input.value, rounds, []) && AllFailed(lib, rounds, 0)
        && JwtFor(first, rounds, 0) == first by {
      NoRounds(lib, mapResponse.value, input.value, rounds);
    }
    while true
      invariant fresh(invocation) && invocation.input == Some(input.value)
      invariant invocation.functionCallJwt == mapResponse.value.functionCallJwt
      invariant 0 <= retryCount == awaits == |retries| <= |rounds| && retryCount <= MAX_SYSTEM_RETRIES + 1
      invariant invocation.inputJwt == JwtFor(first, rounds, retryCount)
      invariant forall k :: 0 <= k < awaits ==> FailsInternally(lib, rounds[k].polls)
      invariant AllFailed(lib, rounds, awaits) && GoodRetries(mapResponse.value, input.value, rounds, retries)
      invariant awaits > 0 ==> rounds[awaits - 1].retryResponse.Ok?
      decreases |rounds| - awaits
    {
      if awaits == |rounds| {
        LastFailed(lib, rounds, awaits);
        return StillRunning, awaits, retries;
      }
      var round := rounds[awaits];
      awaits := awaits + 1;
      var result, _ := PollFunctionOutput(lib, None, round.polls);
      InternallyMeaning(lib, round.polls);
      FirstReplyDecides(lib, round.polls);
      if result == Returned(Err(InternalFailure)) && retryCount <= MAX_SYSTEM_RETRIES {
        OneMoreRetry(mapResponse.value, input.value, rounds, retries);
        OneMoreFailure(lib, rounds, retryCount);
        JwtStep(first, rounds, retryCount);
        var retried, sent := invocation.Retry(retryCount, round.retryResponse);
        retries := retries + [sent.value];
        if retried.Err? {
          return Returned(Err(retried.error)), awaits, retries;
        }
        retryCount := retryCount + 1;
      } else {
        return result, awaits, retries;
      }
    }
  }

  lemma {:induction false} NoRounds<V>(lib: Library<V>, response: MapResponse, input: bytes, rounds: seq<Round>)
    ensures GoodRetries(response, input, rounds, []) && AllFailed(lib, rounds, 0)
    ensures forall first :: JwtFor(first, rounds, 0) == first
  {
  }

  lemma {:induction false} OneMoreFailure<V>(lib: Library<V>, rounds: seq<Round>, n: nat)
    requires AllFailed(lib, rounds, n) && n < |rounds|
    requires Outcome(lib, rounds[n].polls) == Returned(Err(InternalFailure))
    ensures AllFailed(lib, rounds, n + 1)
  {
    hide Outcome;
  }

  lemma {:induction false} LastFailed<V>(lib: Library<V>, rounds: seq<Round>, n: nat)
    requires AllFailed(lib, rounds, n)
    ensures n > 0 ==> Outcome(lib, rounds[n - 1].polls) == Returned(Err(InternalFailure))
  {
    hide Outcome;
  }

  lemma {:induction false} JwtStep(first: string, rounds: seq<Round>, k: nat)
    requires k < |rounds|
    ensures JwtFor(first, rounds, k + 1) == NextJwt(JwtFor(first, rounds, k), rounds[k].retryResponse)
  {
  }
}
