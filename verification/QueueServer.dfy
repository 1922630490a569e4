/** One partition of a queue as its clients see it: a FIFO of pickled byte strings whose put and get
    requests each happen at one instant, all or nothing. */
module QueueServer {
  import opened Bytes
  import opened Common
  import opened PickleEncoder
  import opened PickleMachine
  import opened PickleRoundTrip
  import opened PickleStreams
  import opened PickleValue

  /** The stored byte strings, and the history: the values of every accepted put and the values
      decoded from every non-empty get, in the order the server served them. */
  datatype Server = Server(items: seq<bytes>, accepted: seq<Value>, received: seq<Value>)

  /** A request that took effect. */
  datatype Step = Accept(values: seq<Value>) | Deliver(count: nat)

  /** Decodes a batch in order; the first failure fails the batch. */
  function DecodeAll(pf: FloatParser, raws: seq<bytes>): (r: Result<seq<Value>>)
    ensures r.Ok? ==> |r.value| == |raws|
    ensures r.Err? ==> r.error == Serialization
  {
    if raws == [] then Ok([])
    else
      match DecodeAll(pf, raws[..|raws| - 1])
      case Err(e) => Err(e)
      case Ok(vs) =>
        match Deserialize(pf, raws[|raws| - 1])
        case Err(e) => Err(e)
        case Ok(v) => Ok(vs + [v])
  }

  /** A batch whose decoding fails is gone from the server and reaches nobody. */
  function Apply(pf: FloatParser, s: Server, step: Step): Server {
    match step
    case Accept(vs) => Server(s.items + SerializeAll(vs), s.accepted + vs, s.received)
    case Deliver(count) =>
      var k := Min(count, |s.items|);
      var got := DecodeAll(pf, s.items[..k]);
      Server(s.items[k..], s.accepted, s.received + if got.Ok? then got.value else [])
  }

  function ApplyAll(pf: FloatParser, s: Server, steps: seq<Step>): Server {
    if steps == [] then s else Apply(pf, ApplyAll(pf, s, steps[..|steps| - 1]), steps[|steps| - 1])
  }

  ghost predicate EncodableStep(step: Step) { step.Accept? ==> AllEncodable(step.values) }

  ghost predicate EncodableSteps(steps: seq<Step>) {
    forall i :: 0 <= i < |steps| ==> EncodableStep(steps[i])
  }

  /** The server refines a FIFO of values: what was received is a prefix of what was accepted, and
      exactly the remaining values are stored, in order. */
  ghost predicate Refines(s: Server) {
    && s.received <= s.accepted
    && AllEncodable(s.accepted[|s.received|..])
    && s.items == SerializeAll(s.accepted[|s.received|..])
  }

  lemma {:induction false} SerializedBatchDecodes(pf: FloatParser, vs: seq<Value>)
    requires AllEncodable(vs)
    ensures DecodeAll(pf, SerializeAll(vs)) == Ok(vs)
  {
    hide Encodable, Deserialize, Serialize;
    if vs == [] {
    } else {
      var init, last := vs[..|vs| - 1], vs[|vs| - 1];
      SerializedBatchDecodes(pf, init);
      RoundTrip(pf, last);
      assert SerializeAll(vs)[..|vs| - 1] == SerializeAll(init);
      assert init + [last] == vs;
    }
  }

  /** One request keeps the refinement, and a get hands over the front of the queue undamaged. */
  lemma {:induction false} StepRefines(pf: FloatParser, s: Server, step: Step)
    requires Refines(s) && EncodableStep(step)
    ensures Refines(Apply(pf, s, step))
    ensures step.Deliver? ==>
              var k := Min(step.count, |s.items|);
              var n := |s.received|;
              DecodeAll(pf, s.items[..k]) == Ok(s.accepted[n..n + k])
  {
    hide Encodable, Serialize, DecodeAll;
    var n := |s.received|;
    var queue := s.accepted[n..];
    match step
    case Accept(vs) =>
      assert (s.accepted + vs)[n..] == queue + vs;
      assert SerializeAll(queue + vs) == SerializeAll(queue) + SerializeAll(vs);
    case Deliver(count) =>
      var k := Min(count, |s.items|);
      SerializedBatchDecodes(pf, queue[..k]);
      assert SerializeAll(queue)[..k] == SerializeAll(queue[..k]);
      assert SerializeAll(queue)[k..] == SerializeAll(queue[k..]);
      assert queue[..k] == s.accepted[n..n + k];
      assert s.received + queue[..k] == s.accepted[..n + k];
      assert s.accepted[n + k..] == queue[k..];
  }

  /** Whatever requests any number of clients make, in whatever order the server serves them: values
      come out in the order they went in, none lost, none twice. */
  lemma {:induction false} AnyInterleavingRefines(pf: FloatParser, s: Server, steps: seq<Step>)
    requires Refines(s) && EncodableSteps(steps)
    ensures Refines(ApplyAll(pf, s, steps))
    decreases |steps|
  {
    hide Refines, EncodableStep, Apply;
    if steps == [] {
    } else {
      AnyInterleavingRefines(pf, s, steps[..|steps| - 1]);
      StepRefines(pf, ApplyAll(pf, s, steps[..|steps| - 1]), steps[|steps| - 1]);
    }
  }

  lemma {:induction false} ApplyAllAppend(pf: FloatParser, s: Server, a: seq<Step>, b: seq<Step>)
    ensures ApplyAll(pf, s, a + b) == ApplyAll(pf, ApplyAll(pf, s, a), b)
    decreases |b|
  {
    hide Apply;
    if b == [] {
      assert a + b == a;
    } else {
      assert (a + b)[..|a + b| - 1] == a + b[..|b| - 1];
      ApplyAllAppend(pf, s, a, b[..|b| - 1]);
    }
  }
}
