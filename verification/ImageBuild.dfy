/** Building an image layer by layer. */
module ImageBuild {
  import opened Common
  import Text

  datatype Layer = Layer(commands: seq<string>, secretIds: seq<string>, gpu: string, forceBuild: bool)

  datatype Image = Image(imageId: string, tag: string, registryConfig: Option<string>, layers: seq<Layer>)

  datatype Params = Params(appId: string, builderVersion: string)

  datatype BaseImage = BaseImage(dockerTag: string, imageId: string)

  datatype Request = Request(
    appId: string, dockerfileCommands: seq<string>, registryConfig: Option<string>, secretIds: seq<string>,
    gpuConfig: Option<string>, baseImages: seq<BaseImage>, builderVersion: string, forceBuild: bool)

  datatype BuildStatus = Success | Failure | Timeout | Terminated | Pending

  datatype BuildResult = BuildResult(imageId: string, status: BuildStatus)

  datatype Join = Join(result: Option<BuildResult>, lastEntryId: string)

  datatype JoinRequest = JoinRequest(imageId: string, lastEntryId: string)

  /** What the server answers for one layer: to the build request, and to the polls that may follow. */
  datatype Answers = Answers(created: Result<BuildResult>, joins: seq<Result<Join>>)

  /** Parses a GPU description; the parser is a parameter of the model. */
  type GpuParser = string -> Result<string>

  function IntoResult(result: BuildResult): (r: Result<string>)
    ensures r.Ok? <==> result.status.Success?
    ensures r.Ok? ==> r.value == result.imageId
  {
    match result.status
    case Success => Ok(result.imageId)
    case Pending => Err(Other)
    case _ => Err(Remote)
  }

  // ---- Validation ----

  function TrimStart(s: string): string {
    if s != "" && Text.WhiteSpace(s[0] as int) then TrimStart(s[1..]) else s
  }

  function TrimEnd(s: string): string {
    if s != "" && Text.WhiteSpace(s[|s| - 1] as int) then TrimEnd(s[..|s| - 1]) else s
  }

  /** Upper case; only ASCII letters can turn into the letters of the words looked for. */
  function Upper(s: string): (t: string)
    ensures |t| == |s|
  {
    seq(|s|, i requires 0 <= i < |s| => if 'a' <= s[i] <= 'z' then s[i] - 'a' + 'A' else s[i])
  }

  /** A COPY that is not from another build stage would need the local file system. */
  predicate CopiesLocally(command: string) {
    var trimmed := Upper(TrimEnd(TrimStart(command)));
    "COPY " <= trimmed && !("COPY --FROM=" <= trimmed)
  }

  predicate SolidEnds(s: string) {
    s != "" && !Text.WhiteSpace(s[0] as int) && !Text.WhiteSpace(s[|s| - 1] as int)
  }

  predicate Blank(s: string) {
    forall i :: 0 <= i < |s| ==> Text.WhiteSpace(s[i] as int)
  }

  /** A command between any white space is refused exactly when it begins with COPY and a space, in any
      case, and not with COPY, a space and --FROM=; nothing but white space is accepted. */
  lemma {:induction false} WhatIsRefused(a: string, s: string, b: string)
    requires Blank(a) && Blank(b)
    ensures SolidEnds(s) ==>
              (CopiesLocally(a + s + b) <==>
                 |s| >= 5 && Upper(s[..5]) == "COPY " && !(|s| >= 12 && Upper(s[5..12]) == "--FROM="))
    ensures !CopiesLocally(a)
  {
    TrimsBlank(a);
    if SolidEnds(s) {
      assert a + s + b == a + (s + b);
      TrimsStart(a, s + b);
      TrimsEnd(s, b);
      var u := Upper(s);
      if |s| >= 5 {
        assert u[..5] == Upper(s[..5]);
        assert "COPY " <= u <==> u[..5] == "COPY ";
      }
      if |s| >= 12 {
        assert u[5..12] == Upper(s[5..12]);
        assert u[..12] == u[..5] + u[5..12] && "COPY --FROM=" == "COPY " + "--FROM=";
        assert "COPY --FROM=" <= u <==> u[..12] == "COPY --FROM=";
      }
    }
  }

  lemma {:induction false} TrimsBlank(a: string)
    requires Blank(a)
    ensures TrimStart(a) == "" && TrimEnd("") == ""
  {
    if a == "" {
    } else {
      TrimsBlank(a[1..]);
    }
  }

  lemma {:induction false} TrimsStart(a: string, s: string)
    requires Blank(a) && s != "" && !Text.WhiteSpace(s[0] as int)
    ensures TrimStart(a + s) == s
  {
    if a == "" {
      assert a + s == s;
    } else {
      assert (a + s)[1..] == a[1..] + s;
      TrimsStart(a[1..], s);
    }
  }

  lemma {:induction false} TrimsEnd(s: string, b: string)
    requires Blank(b) && s != "" && !Text.WhiteSpace(s[|s| - 1] as int)
    ensures TrimEnd(s + b) == s
  {
    if b == "" {
      assert s + b == s;
    } else {
      assert (s + b)[..|s + b| - 1] == s + b[..|b| - 1];
      TrimsEnd(s, b[..|b| - 1]);
    }
  }

  /** Letters are told apart by case no further than ASCII. */
  lemma {:induction false} UpperLetters()
    ensures Upper("copy ") == Upper("Copy ") == Upper("cOpY ") == Upper("COPY ") == "COPY "
    ensures Upper("--from=") == Upper("--FROM=") == "--FROM="
  {
  }

  ghost predicate ValidLayer(layer: Layer) {
    forall k :: 0 <= k < |layer.commands| ==> !CopiesLocally(layer.commands[k])
  }

  method ValidateDockerfileCommands(commands: seq<string>) returns (ok: bool)
    ensures ok <==> forall k :: 0 <= k < |commands| ==> !CopiesLocally(commands[k])
  {
    for i := 0 to |commands|
      invariant forall k :: 0 <= k < i ==> !CopiesLocally(commands[k])
    {
      if CopiesLocally(commands[i]) {
        return false;
      }
    }
    ok := true;
  }

  // ---- One layer ----

  /** The build result that ends a layer: the immediate one unless it is pending, else the first one
      that polling brings; or the first error. */
  function Final(answers: Answers): Progress<BuildResult> {
    match answers.created
    case Err(e) => Returned(Err(e))
    case Ok(result) => if result.status.Pending? then FirstResult(answers.joins) else Returned(Ok(result))
  }

  function FirstResult(joins: seq<Result<Join>>): Progress<BuildResult> {
    if joins == [] then StillRunning
    else
      match joins[0]
      case Err(e) => Returned(Err(e))
      case Ok(j) => if j.result.Some? then Returned(Ok(j.result.value)) else FirstResult(joins[1..])
  }

  /** Polls name the layer's image and resume from the last entry id of the reply before. */
  ghost predicate GoodJoins(imageId: string, joins: seq<Result<Join>>, sent: seq<JoinRequest>) {
    |sent| <= |joins| && forall k :: 0 <= k < |sent| ==> GoodJoin(imageId, joins, k, sent[k])
  }

  ghost predicate GoodJoin(imageId: string, joins: seq<Result<Join>>, k: nat, q: JoinRequest)
    requires k < |joins|
  {
    && q.imageId == imageId
    && (k == 0 ==> q.lastEntryId == "")
    && (k > 0 ==> joins[k - 1].Ok? && joins[k - 1].value.result == None
                  && q.lastEntryId == joins[k - 1].value.lastEntryId)
  }

  /** The polls of every layer sent so far. */
  ghost predicate AllJoinsGood(answers: seq<Answers>, joins: seq<seq<JoinRequest>>) {
    |joins| <= |answers| &&
    forall i :: 0 <= i < |joins| && answers[i].created.Ok? ==>
      GoodJoins(answers[i].created.value.imageId, answers[i].joins, joins[i])
  }

  lemma {:induction false} OneMoreJoins(answers: seq<Answers>, joins: seq<seq<JoinRequest>>, sent: seq<JoinRequest>)
    requires AllJoinsGood(answers, joins) && |joins| < |answers|
    requires var a := answers[|joins|]; a.created.Ok? ==> GoodJoins(a.created.value.imageId, a.joins, sent)
    ensures AllJoinsGood(answers, joins + [sent])
  {
    hide GoodJoins;
  }

  /** After this many polls the server's last answer carries this build result, and it is final. */
  predicate DecidedBy(answers: Answers, polls: nat, b: BuildResult) {
    && answers.created.Ok?
    && if polls == 0 then answers.created.value == b && b.status != Pending
       else
         && answers.created.value.status == Pending && polls <= |answers.joins|
         && answers.joins[polls - 1].Ok? && answers.joins[polls - 1].value.result == Some(b)
  }

  /** After this many polls the server's last answer is this error. */
  predicate FailedBy(answers: Answers, polls: nat, e: ModalError) {
    if polls == 0 then answers.created == Err(e)
    else polls <= |answers.joins| && answers.joins[polls - 1] == Err(e)
  }

  /** Sends one layer's request and polls until an answer carries a result, which is passed on as it is,
      or an error; all answers before it carried neither. */
  method AwaitLayer(answers: Answers) returns (r: Progress<BuildResult>, sent: seq<JoinRequest>)
    ensures r == Final(answers)
    ensures r.Returned? && r.result.Ok? ==> DecidedBy(answers, |sent|, r.result.value)
    ensures r.Returned? && r.result.Err? ==> FailedBy(answers, |sent|, r.result.error)
    ensures r.StillRunning? ==> answers.created.Ok? && answers.created.value.status == Pending
                                && |sent| == |answers.joins|
    ensures |sent| <= |answers.joins|
    ensures forall k :: 0 <= k < |sent| - (if r.StillRunning? then 0 else 1) ==>
              answers.joins[k].Ok? && answers.joins[k].value.result == None
    ensures answers.created.Ok? ==> GoodJoins(answers.created.value.imageId, answers.joins, sent)
    ensures sent != [] ==> answers.created.Ok? && answers.created.value.status.Pending?
  {
    sent := [];
    if answers.created.Err? {
      return Returned(Err(answers.created.error)), sent;
    }
    var created := answers.created.value;
    if !created.status.Pending? {
      return Returned(Ok(created)), sent;
    }
    var lastEntryId := "";
    for k := 0 to |answers.joins|
      invariant |sent| == k && GoodJoins(created.imageId, answers.joins, sent)
      invariant lastEntryId == if k == 0 then ""
                else if answers.joins[k - 1].Ok? then answers.joins[k - 1].value.lastEntryId else ""
      invariant forall j :: 0 <= j < k ==> answers.joins[j].Ok? && answers.joins[j].value.result == None
      invariant FirstResult(answers.joins) == FirstResult(answers.joins[k..])
    {
      assert GoodJoin(created.imageId, answers.joins, k, JoinRequest(created.imageId, lastEntryId));
      sent := sent + [JoinRequest(created.imageId, lastEntryId)];
      assert answers.joins[k..][1..] == answers.joins[k + 1..];
      if answers.joins[k].Err? {
        return Returned(Err(answers.joins[k].error)), sent;
      }
      lastEntryId := answers.joins[k].value.lastEntryId;
      if answers.joins[k].value.result.Some? {
        return Returned(Ok(answers.joins[k].value.result.value)), sent;
      }
    }
    r := StillRunning;
  }

  // ---- The chain ----

  /** The layer's final result, as the id it gives to the next layer. */
  function LayerId(answers: Answers): Result<string> {
    match Final(answers)
    case StillRunning => Err(Other)
    case Returned(Err(e)) => Err(e)
    case Returned(Ok(result)) => IntoResult(result)
  }

  /** The `i`-th request of a build. */
  ghost predicate GoodRequest(image: Image, params: Params, gpu: GpuParser, answers: seq<Answers>, i: nat, q: Request)
    requires i < |image.layers| && i < |answers|
  {
    var layer := image.layers[i];
    && q.appId == params.appId
    && q.builderVersion == (if params.builderVersion == "" then "2024.10" else params.builderVersion)
    && q.dockerfileCommands == [if i == 0 then "FROM " + image.tag else "FROM base"] + layer.commands
    && q.secretIds == layer.secretIds
    && (if layer.gpu == "" then q.gpuConfig == None
        else gpu(layer.gpu).Ok? && q.gpuConfig == Some(gpu(layer.gpu).value))
    // Only the first request carries the registry configuration, and only it has no base.
    && q.registryConfig == (if i == 0 then image.registryConfig else None)
    && (i == 0 ==> q.baseImages == [])
    && (i > 0 ==> LayerId(answers[i - 1]).Ok?
                  && q.baseImages == [BaseImage("base", LayerId(answers[i - 1]).value)])
    // Forcing one layer forces every later one.
    && (q.forceBuild <==> exists j :: 0 <= j <= i && image.layers[j].forceBuild)
  }

  ghost predicate GoodRequests(
      image: Image, params: Params, gpu: GpuParser, answers: seq<Answers>, requests: seq<Request>)
  {
    |requests| <= |image.layers| && |requests| <= |answers| &&
    forall i :: 0 <= i < |requests| ==> GoodRequest(image, params, gpu, answers, i, requests[i])
  }

  /** How a build that has sent `n` requests can have ended. */
  ghost predicate EndsRight(image: Image, gpu: GpuParser, answers: seq<Answers>, n: nat, r: Progress<Image>)
    requires n <= |image.layers| && n <= |answers|
  {
    match r
    case StillRunning => n > 0 && Final(answers[n - 1]) == StillRunning
    case Returned(Ok(built)) =>
      && n == |image.layers|
      && built == image.(imageId := if n == 0 then "" else built.imageId)
      && (n > 0 ==> LayerId(answers[n - 1]) == Ok(built.imageId))
    case Returned(Err(e)) =>
      // The last layer sent failed, or the next one's GPU does not parse.
      || (n > 0 && Final(answers[n - 1]) != StillRunning && LayerId(answers[n - 1]) == Err(e))
      || ((n == 0 || LayerId(answers[n - 1]).Ok?)
          && n < |image.layers| && image.layers[n].gpu != "" && gpu(image.layers[n].gpu) == Err(e))
  }

  /** The results that decided the layers, each after the polls made for it. A successful one names the
      base of the next request; none but the last can be another. */
  ghost predicate GoodChain(
      answers: seq<Answers>, requests: seq<Request>, joins: seq<seq<JoinRequest>>, decided: seq<BuildResult>)
  {
    && |decided| <= |requests| == |joins| <= |answers|
    && (forall i :: 0 <= i < |decided| ==> DecidedBy(answers[i], |joins[i]|, decided[i]))
    && |requests| <= |decided| + 1
    && forall i :: 0 <= i < |requests| ==> BasedOn(requests[i], decided[..i])
  }

  /** A request names the image that the layer before it built. */
  ghost predicate BasedOn(q: Request, decided: seq<BuildResult>) {
    decided != [] ==>
      var last := decided[|decided| - 1];
      last.status == Success && q.baseImages == [BaseImage("base", last.imageId)]
  }

  lemma {:induction false} ChainRequest(
      answers: seq<Answers>, requests: seq<Request>, joins: seq<seq<JoinRequest>>, decided: seq<BuildResult>,
      q: Request, sent: seq<JoinRequest>)
    requires GoodChain(answers, requests, joins, decided) && |decided| == |requests| < |answers|
    requires decided != [] ==> decided[|decided| - 1].status == Success
                               && q.baseImages == [BaseImage("base", decided[|decided| - 1].imageId)]
    ensures GoodChain(answers, requests + [q], joins + [sent], decided)
  {
    assert decided[..|decided|] == decided && BasedOn(q, decided);
    hide DecidedBy, BasedOn;
    var all := requests + [q];
    forall i | 0 <= i < |all|
      ensures BasedOn(all[i], decided[..i])
    {
      assert i < |requests| ==> BasedOn(requests[i], decided[..i]);
    }
    forall i | 0 <= i < |decided|
      ensures DecidedBy(answers[i], |(joins + [sent])[i]|, decided[i])
    {
      assert DecidedBy(answers[i], |joins[i]|, decided[i]);
    }
  }

  lemma {:induction false} ChainDecided(
      answers: seq<Answers>, requests: seq<Request>, joins: seq<seq<JoinRequest>>, decided: seq<BuildResult>,
      b: BuildResult)
    requires GoodChain(answers, requests, joins, decided) && |requests| == |decided| + 1
    requires DecidedBy(answers[|decided|], |joins[|decided|]|, b)
    ensures GoodChain(answers, requests, joins, decided + [b])
  {
    hide DecidedBy, BasedOn;
    var all := decided + [b];
    forall i | 0 <= i < |requests|
      ensures BasedOn(requests[i], all[..i])
    {
      assert all[..i] == decided[..i] && BasedOn(requests[i], decided[..i]);
    }
    forall i | 0 <= i < |all|
      ensures DecidedBy(answers[i], |joins[i]|, all[i])
    {
      assert i < |decided| ==> DecidedBy(answers[i], |joins[i]|, decided[i]);
    }
  }

  lemma {:induction false} NoChain(image: Image, params: Params, gpu: GpuParser, answers: seq<Answers>)
    ensures GoodChain(answers, [], [], []) && GoodRequests(image, params, gpu, answers, [])
  {
  }

  lemma {:induction false} OneMoreRequest(
      image: Image, params: Params, gpu: GpuParser, answers: seq<Answers>, requests: seq<Request>, q: Request)
    requires GoodRequests(image, params, gpu, answers, requests)
    requires |requests| < |image.layers| && |requests| < |answers|
    requires GoodRequest(image, params, gpu, answers, |requests|, q)
    ensures GoodRequests(image, params, gpu, answers, requests + [q])
  {
    hide GoodRequest;
  }

  /** A built image is returned as it is. Nothing is sent unless every layer validates. Then layers are
      sent in order, each on top of the image the one before it built, and the first layer that fails
      ends the build. */
  method Build(image: Image, params: Params, gpu: GpuParser, answers: seq<Answers>)
    returns (r: Progress<Image>, requests: seq<Request>, joins: seq<seq<JoinRequest>>,
             ghost decided: seq<BuildResult>)
    requires |answers| >= |image.layers|
    ensures GoodChain(answers, requests, joins, decided)
    ensures r.Returned? && r.result.Ok? && image.imageId == "" && image.layers != [] ==>
              && |decided| == |image.layers| && decided[|decided| - 1].status == Success
              && r.result.value.imageId == decided[|decided| - 1].imageId
    ensures decided != [] && decided[|decided| - 1].status != Success ==>
              r == Returned(Err(Remote)) || (decided[|decided| - 1].status == Pending && r == Returned(Err(Other)))
    ensures image.imageId != "" ==> r == Returned(Ok(image)) && requests == []
    ensures image.imageId == "" && (exists l :: 0 <= l < |image.layers| && !ValidLayer(image.layers[l])) ==>
              r == Returned(Err(Invalid)) && requests == []
    ensures |joins| == |requests|
    ensures requests != [] ==> forall l :: 0 <= l < |image.layers| ==> ValidLayer(image.layers[l])
    ensures requests != [] ==>
              forall l, k :: 0 <= l < |image.layers| && 0 <= k < |image.layers[l].commands| ==>
                !CopiesLocally(image.layers[l].commands[k])
    ensures GoodRequests(image, params, gpu, answers, requests)
    ensures AllJoinsGood(answers, joins)
    ensures image.imageId == "" && (forall l :: 0 <= l < |image.layers| ==> ValidLayer(image.layers[l])) ==>
              EndsRight(image, gpu, answers, |requests|, r)
  {
    hide ValidLayer, GoodJoins, AllJoinsGood, Final, CopiesLocally, LayerId, GoodChain, GoodRequests, DecidedBy,
      FailedBy;
    NoChain(image, params, gpu, answers);
    requests, joins, decided := [], [], [];
    assert AllJoinsGood(answers, []) by { NoJoins(answers); }
    if image.imageId != "" {
      return Returned(Ok(image)), requests, joins, decided;
    }
    var valid := ValidateLayers(image.layers);
    if !valid {
      return Returned(Err(Invalid)), requests, joins, decided;
    }
    var currentImageId := "";
    for i := 0 to |image.layers|
      invariant |requests| == |joins| == i
      invariant GoodRequests(image, params, gpu, answers, requests)
      invariant AllJoinsGood(answers, joins)
      invariant if i == 0 then currentImageId == "" else LayerId(answers[i - 1]) == Ok(currentImageId)
      invariant GoodChain(answers, requests, joins, decided) && |decided| == i
      invariant i > 0 ==> decided[i - 1].status == Success && decided[i - 1].imageId == currentImageId
    {
      var layer := image.layers[i];
      var gpuConfig: Option<string> := None;
      if layer.gpu != "" {
        var parsed := gpu(layer.gpu);
        if parsed.Err? {
          return Returned(Err(parsed.error)), requests, joins, decided;
        }
        gpuConfig := Some(parsed.value);
      }
      var forced := AnyForced(image.layers, i);
      var request := MakeRequest(image, params, layer, i, gpuConfig, currentImageId, forced);
      OneMoreRequest(image, params, gpu, answers, requests, request);
      requests := requests + [request];
      var final, sent := AwaitLayer(answers[i]);
      OneMoreJoins(answers, joins, sent);
      ChainRequest(answers, requests[..i], joins, decided, request, sent);
      assert requests[..i] + [request] == requests;
      joins := joins + [sent];
      LayerIdOf(answers[i]);
      match final {
        case StillRunning =>
          return StillRunning, requests, joins, decided;
        case Returned(Err(e)) =>
          return Returned(Err(e)), requests, joins, decided;
        case Returned(Ok(result)) =>
          ChainDecided(answers, requests, joins, decided, result);
          decided := decided + [result];
          var id := IntoResult(result);
          if id.Err? {
            return Returned(Err(id.error)), requests, joins, decided;
          }
          currentImageId := id.value;
      }
    }
    r := Returned(Ok(image.(imageId := currentImageId)));
  }

  lemma {:induction false} NoJoins(answers: seq<Answers>)
    ensures AllJoinsGood(answers, [])
  {
  }

  function MakeRequest(
      image: Image, params: Params, layer: Layer, i: nat, gpuConfig: Option<string>, currentImageId: string,
      forced: bool): Request
  {
    Request(
      params.appId,
      [if i == 0 then "FROM " + image.tag else "FROM base"] + layer.commands,
      if i == 0 then image.registryConfig else None,
      layer.secretIds,
      gpuConfig,
      if i == 0 then [] else [BaseImage("base", currentImageId)],
      if params.builderVersion == "" then "2024.10" else params.builderVersion,
      forced)
  }

  lemma {:induction false} LayerIdOf(answers: Answers)
    ensures LayerId(answers)
         == match Final(answers)
            case StillRunning => Err(Other)
            case Returned(Err(e)) => Err(e)
            case Returned(Ok(result)) => IntoResult(result)
  {
  }

  method ValidateLayers(layers: seq<Layer>) returns (ok: bool)
    ensures ok <==> forall l :: 0 <= l < |layers| ==> ValidLayer(layers[l])
    ensures ok ==> forall l, k :: 0 <= l < |layers| && 0 <= k < |layers[l].commands| ==>
                     !CopiesLocally(layers[l].commands[k])
  {
    for i := 0 to |layers|
      invariant forall l :: 0 <= l < i ==> ValidLayer(layers[l])
    {
      var valid := ValidateDockerfileCommands(layers[i].commands);
      if !valid {
        return false;
      }
    }
    ok := true;
  }

  method AnyForced(layers: seq<Layer>, i: nat) returns (forced: bool)
    requires i < |layers|
    ensures forced <==> exists j :: 0 <= j <= i && layers[j].forceBuild
  {
    forced := layers[i].forceBuild;
    for j := 0 to i
      invariant forced <==> layers[i].forceBuild || exists k :: 0 <= k < j && layers[k].forceBuild
    {
      forced := forced || layers[j].forceBuild;
    }
  }

  /** Once forced, every later request of the build is forced. */
  lemma {:induction false} ForceBuildMonotone(
      image: Image, params: Params, gpu: GpuParser, answers: seq<Answers>, requests: seq<Request>, i: nat, k: nat)
    requires GoodRequests(image, params, gpu, answers, requests) && i <= k < |requests|
    ensures requests[i].forceBuild ==> requests[k].forceBuild
  {
    assert GoodRequest(image, params, gpu, answers, i, requests[i]);
    assert GoodRequest(image, params, gpu, answers, k, requests[k]);
  }
}
