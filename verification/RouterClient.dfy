/** The router client's methods, run without interruption: each is the corresponding thread of the
    machine run alone. */
module RouterClient {
  import opened Common
  import opened RouterMachine

  class TaskCommandRouterClient {
    const parse: JwtParser
    const serverUrl: string
    var jwt: string
    var jwtExp: Option<int>
    var closed: bool

    ghost function Fields(): Shared
      reads this
    {
      Shared(serverUrl, jwt, jwtExp, closed)
    }

    constructor (parse: JwtParser, url: string, jwt: string, jwtExp: Option<int>)
      ensures this.parse == parse && Fields() == Shared(url, jwt, jwtExp, false)
    {
      this.parse, serverUrl := parse, url;
      this.jwt, this.jwtExp, closed := jwt, jwtExp, false;
    }

    /** Succeeds exactly when the access request does, its token parses and its URL is https; the client
        then is in the state the machine starts from. */
    static method Init(parse: JwtParser, access: Result<Access>)
      returns (r: Result<()>, client: TaskCommandRouterClient?)
      ensures r.Ok? <==> access.Ok? && parse(access.value.jwt).Ok? && "https://" <= access.value.url
      ensures r.Ok? <==> client != null
      ensures client != null ==>
                fresh(client) && client.parse == parse &&
                Initial(parse, System(client.Fields(), [], [access.value]))
    {
      client := null;
      if access.Err? { return Err(access.error), client; }
      var exp := parse(access.value.jwt);
      if exp.Err? { return Err(exp.error), client; }
      if !("https://" <= access.value.url) { return Err(Other), client; }
      client := new TaskCommandRouterClient(parse, access.value.url, access.value.jwt, exp.value);
      r := Ok(());
    }

    method Close()
      modifies this
      ensures Fields() == old(Fields()).(closed := true)
    {
      closed := true;
    }

    /** One access response, applied to these fields: one with another URL, or an error, changes nothing;
        any other replaces the token, and the expiry by that of the new token, if it has a readable one. */
    ghost predicate Refreshes(access: Result<Access>, before: Shared, r: Result<()>)
      reads this
    {
      match access
      case Err(e) => r == Err(e) && Fields() == before
      case Ok(a) =>
        if a.url != before.url then r == Err(Other) && Fields() == before
        else
          && r == Ok(()) && jwt == a.jwt
          && jwtExp == (match parse(a.jwt) case Ok(exp) => exp case Err(_) => None)
          && serverUrl == before.url && closed == before.closed
    }

    /** What both refreshes do once they have decided to: one access request, the URL check, and the two
        stores. A response with another URL, or an error, changes nothing. */
    method FetchAndStore(access: Result<Access>) returns (r: Result<()>)
      modifies this
      ensures match access
              case Err(e) => r == Err(e) && Fields() == old(Fields())
              case Ok(a) =>
                if a.url != serverUrl then r == Err(Other) && Fields() == old(Fields())
                else r == Ok(()) && Fields() == old(Fields()).(jwt := a.jwt, jwtExp := ExpiryOf(parse, a.jwt))
      ensures Refreshes(access, old(Fields()), r)
    {
      if access.Err? { return Err(access.error); }
      if access.value.url != serverUrl { return Err(Other); }
      var newExp := ExpiryOf(parse, access.value.jwt);
      jwt := access.value.jwt;
      jwtExp := newExp;
      r := Ok(());
    }

    /** Refused once closed; a token with more than 30 seconds left is kept; otherwise it is refreshed. */
    method RefreshJwtIfNeeded(env: Env) returns (r: Result<()>, trace: seq<Rpc>)
      modifies this
      ensures closed == old(closed)
      ensures closed ==> r == Err(ClientClosed) && trace == [] && Fields() == old(Fields())
      ensures !closed && old(jwtExp).Some? && old(jwtExp).value - env.now > 30 ==>
                r == Ok(()) && trace == [] && Fields() == old(Fields())
      ensures !closed && (old(jwtExp).None? || old(jwtExp).value - env.now <= 30) ==>
                trace == [AccessRpc(env.access)] && Refreshes(env.access, old(Fields()), r)
      ensures RunAlone(parse, old(Fields()), Spawned(Refresh, env, old(closed)))
           == Moved(Fields(), Thread(Refresh, env, Finished(r), trace, old(closed)))
    {
      hide Step, RunAlone, ExpiryOf;
      trace := [];
      ghost var th := Spawned(Refresh, env, closed);
      StartAlone(parse, Fields(), th);
      if closed {
        return Err(ClientClosed), trace;
      }
      if jwtExp.Some? && jwtExp.value - env.now > JWT_REFRESH_BUFFER_SECONDS {
        return Ok(()), trace;
      }
      FetchAlone(parse, Fields(), th.(pc := FetchAccess));
      r := FetchAndStore(env.access);
      trace := [AccessRpc(env.access)];
    }

    method ForceRefreshJwt(env: Env) returns (r: Result<()>, trace: seq<Rpc>)
      modifies this
      ensures closed == old(closed)
      ensures closed ==> r == Err(ClientClosed) && trace == [] && Fields() == old(Fields())
      ensures !closed ==> trace == [AccessRpc(env.access)] && Refreshes(env.access, old(Fields()), r)
      ensures !closed ==>
                match env.access
                case Err(e) => r == Err(e) && Fields() == old(Fields())
                case Ok(a) =>
                  if a.url != serverUrl then r == Err(Other) && Fields() == old(Fields())
                  else r == Ok(()) && Fields() == old(Fields()).(jwt := a.jwt, jwtExp := ExpiryOf(parse, a.jwt))
    {
      trace := [];
      if closed {
        return Err(ClientClosed), trace;
      }
      r := FetchAndStore(env.access);
      trace := [AccessRpc(env.access)];
    }

    /** Any of the operations: nothing at all once closed; otherwise the request with the current token,
        and on UNAUTHENTICATED one forced refresh and one more request. */
    method Operate(env: Env) returns (r: Result<()>, trace: seq<Rpc>)
      modifies this
      ensures closed == old(closed)
      ensures closed ==> r == Err(ClientClosed) && trace == [] && Fields() == old(Fields())
      ensures !closed && env.first != Err(Grpc(Unauthenticated)) ==>
                r == env.first && trace == [OpRpc(old(jwt), env.first)] && Fields() == old(Fields())
      ensures !closed && env.first == Err(Grpc(Unauthenticated)) ==>
                var tried := [OpRpc(old(jwt), env.first), AccessRpc(env.access)];
                if env.access.Ok? && env.access.value.url == serverUrl then
                  && r == env.second && trace == tried + [OpRpc(env.access.value.jwt, env.second)]
                  && Refreshes(env.access, old(Fields()), Ok(()))
                else r.Err? && trace == tried && Refreshes(env.access, old(Fields()), r)
      ensures RunAlone(parse, old(Fields()), Spawned(Operation, env, old(closed)))
           == Moved(Fields(), Thread(Operation, env, Finished(r), trace, old(closed)))
    {
      hide Step, RunAlone, ExpiryOf;
      trace := [];
      ghost var th := Spawned(Operation, env, closed);
      StartAlone(parse, Fields(), th);
      if closed {
        return Err(ClientClosed), trace;
      }
      FirstCallAlone(parse, Fields(), th.(pc := ReadJwt(false)));
      trace := trace + [OpRpc(jwt, env.first)];
      if !IsUnauthenticated(env.first) {
        return env.first, trace;
      }
      th := th.(pc := FetchAccess, trace := trace);
      FetchAlone(parse, Fields(), th);
      var refreshed, more := ForceRefreshJwt(env);
      trace := trace + more;
      if refreshed.Err? {
        return Err(refreshed.error), trace;
      }
      SecondCallAlone(parse, Fields(), th.(pc := ReadJwt(true), trace := trace));
      trace := trace + [OpRpc(jwt, env.second)];
      r := env.second;
    }
  }

  // ---- The machine's steps of an undisturbed thread ----

  lemma {:induction false} StartAlone(parse: JwtParser, sh: Shared, th: Thread)
    requires th.pc == Begin && th.trace == []
    ensures sh.closed ==> RunAlone(parse, sh, th) == Moved(sh, th.(pc := Finished(Err(ClientClosed))))
    ensures !sh.closed && th.kind.Operation? ==>
              RunAlone(parse, sh, th) == RunAlone(parse, sh, th.(pc := ReadJwt(false)))
    ensures !sh.closed && th.kind.Refresh? ==>
              RunAlone(parse, sh, th)
              == if sh.jwtExp.Some? && sh.jwtExp.value - th.env.now > JWT_REFRESH_BUFFER_SECONDS
                 then Moved(sh, th.(pc := Finished(Ok(())))) else RunAlone(parse, sh, th.(pc := FetchAccess))
  {
    if !sh.closed && th.kind.Refresh? {
      assert RunAlone(parse, sh, th) == RunAlone(parse, sh, th.(pc := CheckExpiry));
      Halted(parse, sh, th.(pc := Finished(Ok(()))));
    }
  }

  lemma {:induction false} Halted(parse: JwtParser, sh: Shared, th: Thread)
    requires th.pc.Finished?
    ensures RunAlone(parse, sh, th) == Moved(sh, th)
  {
  }

  lemma {:induction false} FirstCallAlone(parse: JwtParser, sh: Shared, th: Thread)
    requires th.pc == ReadJwt(false)
    ensures var called := th.(trace := th.trace + [OpRpc(sh.jwt, th.env.first)]);
            RunAlone(parse, sh, th)
            == if !IsUnauthenticated(th.env.first) then Moved(sh, called.(pc := Finished(th.env.first)))
               else if sh.closed then Moved(sh, called.(pc := Finished(Err(ClientClosed))))
               else RunAlone(parse, sh, called.(pc := FetchAccess))
  {
    var called := th.(trace := th.trace + [OpRpc(sh.jwt, th.env.first)]);
    assert RunAlone(parse, sh, th) == RunAlone(parse, sh, th.(pc := Call(false, sh.jwt)));
    if IsUnauthenticated(th.env.first) {
      assert RunAlone(parse, sh, th.(pc := Call(false, sh.jwt))) == RunAlone(parse, sh, called.(pc := BeginForced));
      Halted(parse, sh, called.(pc := Finished(Err(ClientClosed))));
    } else {
      Halted(parse, sh, called.(pc := Finished(th.env.first)));
    }
  }

  lemma {:induction false} FetchAlone(parse: JwtParser, sh: Shared, th: Thread)
    requires th.pc == FetchAccess
    ensures var fetched := th.(trace := th.trace + [AccessRpc(th.env.access)]);
            RunAlone(parse, sh, th)
            == match th.env.access
               case Err(e) => Moved(sh, fetched.(pc := Finished(Err(e))))
               case Ok(a) =>
                 if a.url != sh.url then Moved(sh, fetched.(pc := Finished(Err(Other))))
                 else
                   var sh' := sh.(jwt := a.jwt, jwtExp := ExpiryOf(parse, a.jwt));
                   if th.kind.Refresh? then Moved(sh', fetched.(pc := Finished(Ok(()))))
                   else RunAlone(parse, sh', fetched.(pc := ReadJwt(true)))
  {
    hide ExpiryOf;
    if th.env.access.Ok? && th.env.access.value.url == sh.url {
      var a := th.env.access.value;
      var fetched := th.(trace := th.trace + [AccessRpc(th.env.access)]);
      var stored := sh.(jwt := a.jwt);
      assert RunAlone(parse, sh, th) == RunAlone(parse, sh, fetched.(pc := StoreJwt(a.jwt)));
      assert RunAlone(parse, sh, fetched.(pc := StoreJwt(a.jwt)))
          == RunAlone(parse, stored, fetched.(pc := StoreExpiry(a.jwt)));
      var done := sh.(jwt := a.jwt, jwtExp := ExpiryOf(parse, a.jwt));
      var next := fetched.(pc := if th.kind.Refresh? then Finished(Ok(())) else ReadJwt(true));
      assert Step(parse, stored, fetched.(pc := StoreExpiry(a.jwt))) == Moved(done, next);
      assert RunAlone(parse, stored, fetched.(pc := StoreExpiry(a.jwt))) == RunAlone(parse, done, next);
      if th.kind.Refresh? {
        Halted(parse, done, next);
      }
    }
  }

  lemma {:induction false} SecondCallAlone(parse: JwtParser, sh: Shared, th: Thread)
    requires th.pc == ReadJwt(true)
    ensures RunAlone(parse, sh, th)
         == Moved(sh, th.(pc := Finished(th.env.second), trace := th.trace + [OpRpc(sh.jwt, th.env.second)]))
  {
    assert RunAlone(parse, sh, th) == RunAlone(parse, sh, th.(pc := Call(true, sh.jwt)));
    Halted(parse, sh, th.(pc := Finished(th.env.second), trace := th.trace + [OpRpc(sh.jwt, th.env.second)]));
  }
}
