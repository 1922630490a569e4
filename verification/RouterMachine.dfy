/** The router client as concurrent threads over shared fields. Each field has its own lock, so a
    step reads or writes one of them, or issues one RPC; any thread may run between two steps. */
module RouterMachine {
  import opened Common

  const JWT_REFRESH_BUFFER_SECONDS := 30

  /** Reads the expiry claim of a token; the library's JWT parser is a parameter of the model. */
  type JwtParser = string -> Result<Option<int>>

  /** A malformed refreshed token counts as one without an expiry. */
  function ExpiryOf(parse: JwtParser, jwt: string): Option<int> {
    match parse(jwt) case Ok(exp) => exp case Err(_) => None
  }

  /** A response to "get command router access". */
  datatype Access = Access(url: string, jwt: string)

  datatype Shared = Shared(url: string, jwt: string, jwtExp: Option<int>, closed: bool)

  /** What a thread will meet: the replies to its RPCs and the clock when it looks. */
  datatype Env = Env(first: Result<()>, access: Result<Access>, second: Result<()>, now: int)

  datatype Rpc = OpRpc(jwt: string, answer: Result<()>) | AccessRpc(reply: Result<Access>)

  /** `Operation` is any of the client's operations; `Refresh` is `refresh_jwt_if_needed`. */
  datatype Kind = Operation | Refresh

  datatype Pc =
    | Begin
    | CheckExpiry
    | ReadJwt(second: bool)
    | Call(second: bool, jwt: string)
    | BeginForced
    | FetchAccess
    | StoreJwt(jwt: string)
    | StoreExpiry(jwt: string)
    | Finished(result: Result<()>)

  /** A thread with the RPCs it has issued; `late` if it started when the client was closed. */
  datatype Thread = Thread(kind: Kind, env: Env, pc: Pc, trace: seq<Rpc>, late: bool)

  function Spawned(kind: Kind, env: Env, late: bool): Thread { Thread(kind, env, Begin, [], late) }

  predicate IsUnauthenticated(r: Result<()>) { r == Err(Grpc(Unauthenticated)) }

  datatype Moved = Moved(sh: Shared, th: Thread)

  /** One step of a thread. */
  function Step(parse: JwtParser, sh: Shared, th: Thread): (m: Moved)
    requires !th.pc.Finished?
    ensures th.trace <= m.th.trace && Rank(m.th.pc) < Rank(th.pc)
  {
    match th.pc
    case Begin =>
      Moved(sh, th.(pc := if sh.closed then Finished(Err(ClientClosed))
                          else if th.kind.Operation? then ReadJwt(false) else CheckExpiry))
    case CheckExpiry =>
      var farOff := sh.jwtExp.Some? && sh.jwtExp.value - th.env.now > JWT_REFRESH_BUFFER_SECONDS;
      Moved(sh, th.(pc := if farOff then Finished(Ok(())) else FetchAccess))
    case ReadJwt(second) => Moved(sh, th.(pc := Call(second, sh.jwt)))
    case Call(second, jwt) =>
      var reply := if second then th.env.second else th.env.first;
      Moved(sh, th.(trace := th.trace + [OpRpc(jwt, reply)],
                    pc := if !second && IsUnauthenticated(reply) then BeginForced else Finished(reply)))
    case BeginForced =>
      Moved(sh, th.(pc := if sh.closed then Finished(Err(ClientClosed)) else FetchAccess))
    case FetchAccess =>
      var reply := th.env.access;
      Moved(sh, th.(trace := th.trace + [AccessRpc(reply)],
                    pc := match reply
                          case Err(e) => Finished(Err(e))
                          case Ok(a) => if a.url != sh.url then Finished(Err(Other)) else StoreJwt(a.jwt)))
    case StoreJwt(jwt) => Moved(sh.(jwt := jwt), th.(pc := StoreExpiry(jwt)))
    case StoreExpiry(jwt) =>
      Moved(sh.(jwtExp := ExpiryOf(parse, jwt)),
            th.(pc := if th.kind.Operation? then ReadJwt(true) else Finished(Ok(()))))
  }

  /** The steps a thread has left. */
  function Rank(pc: Pc): nat {
    match pc
    case Begin => 9
    case ReadJwt(second) => if second then 2 else 8
    case Call(second, _) => if second then 1 else 7
    case CheckExpiry => 6
    case BeginForced => 6
    case FetchAccess => 5
    case StoreJwt(_) => 4
    case StoreExpiry(_) => 3
    case Finished(_) => 0
  }

  /** A thread that nobody interrupts. */
  function RunAlone(parse: JwtParser, sh: Shared, th: Thread): (m: Moved)
    ensures m.th.pc.Finished?
    decreases Rank(th.pc)
  {
    if th.pc.Finished? then Moved(sh, th)
    else
      var m := Step(parse, sh, th);
      RunAlone(parse, m.sh, m.th)
  }

  // ---- Interleavings ----

  /** All threads, and every access response any of them has received so far. */
  datatype System = System(sh: Shared, threads: seq<Thread>, responses: seq<Access>)

  datatype Action = Close | Spawn(kind: Kind, env: Env) | Schedule(t: nat)

  /** The access responses among a thread's newest RPCs. */
  function Received(before: seq<Rpc>, after: seq<Rpc>): seq<Access>
    requires |before| <= |after|
  {
    if |after| > |before| && after[|after| - 1].AccessRpc? && after[|after| - 1].reply.Ok?
    then [after[|after| - 1].reply.value] else []
  }

  function Act(parse: JwtParser, sys: System, a: Action): System {
    match a
    case Close => sys.(sh := sys.sh.(closed := true))
    case Spawn(kind, env) => sys.(threads := sys.threads + [Spawned(kind, env, sys.sh.closed)])
    case Schedule(t) =>
      if t >= |sys.threads| || sys.threads[t].pc.Finished? then sys
      else
        var m := Step(parse, sys.sh, sys.threads[t]);
        System(m.sh, sys.threads[t := m.th],
               sys.responses + Received(sys.threads[t].trace, m.th.trace))
  }

  /** The system after `init` and a run of actions. */
  function Run(parse: JwtParser, sys: System, actions: seq<Action>): System {
    if actions == [] then sys
    else Act(parse, Run(parse, sys, actions[..|actions| - 1]), actions[|actions| - 1])
  }

  /** What `init` leaves: the token and the URL of one response, and that token's expiry. */
  ghost predicate Initial(parse: JwtParser, sys: System) {
    && sys.threads == [] && !sys.sh.closed
    && sys.responses == [Access(sys.sh.url, sys.sh.jwt)]
    && sys.sh.jwtExp == ExpiryOf(parse, sys.sh.jwt)
  }

  // ---- Safety ----

  /** The RPCs a thread can have issued at each point. */
  ghost predicate TraceFits(url: string, th: Thread) {
    var op := th.kind.Operation?;
    match th.pc
    case Begin => th.trace == []
    case CheckExpiry => !op && th.trace == []
    case ReadJwt(second) => op && if second then Refreshed(url, op, th.trace) else th.trace == []
    case Call(second, _) => op && if second then Refreshed(url, op, th.trace) else th.trace == []
    case BeginForced => op && Rejected(th.trace)
    case FetchAccess => if op then Rejected(th.trace) else th.trace == []
    case StoreJwt(jwt) => Refreshed(url, op, th.trace) && NewToken(th.trace) == jwt
    case StoreExpiry(jwt) => Refreshed(url, op, th.trace) && NewToken(th.trace) == jwt
    case Finished(_) =>
      || th.trace == []
      || (op && |th.trace| == 1 && th.trace[0].OpRpc?)
      || (op && |th.trace| == 2 && Rejected(th.trace[..1]) && th.trace[1].AccessRpc?)
      || (op && |th.trace| == 3 && Refreshed(url, op, th.trace[..2]) && th.trace[2].OpRpc?)
      || (!op && |th.trace| == 1 && th.trace[0].AccessRpc?)
  }

  /** One operation RPC, answered UNAUTHENTICATED. */
  ghost predicate Rejected(trace: seq<Rpc>) {
    |trace| == 1 && trace[0].OpRpc? && IsUnauthenticated(trace[0].answer)
  }

  /** The same for an operation, and then an access response with the client's own URL. */
  ghost predicate Refreshed(url: string, op: bool, trace: seq<Rpc>) {
    && |trace| == (if op then 2 else 1)
    && (op ==> Rejected(trace[..1]))
    && var last := trace[|trace| - 1];
       last.AccessRpc? && last.reply.Ok? && last.reply.value.url == url
  }

  function NewToken(trace: seq<Rpc>): string {
    if trace != [] && trace[|trace| - 1].AccessRpc? && trace[|trace| - 1].reply.Ok?
    then trace[|trace| - 1].reply.value.jwt else ""
  }

  function OpRpcs(trace: seq<Rpc>): nat {
    if trace == [] then 0 else OpRpcs(trace[..|trace| - 1]) + if trace[|trace| - 1].OpRpc? then 1 else 0
  }

  /** The tokens a thread holds or has presented. */
  ghost predicate TokensIssued(sys: System, th: Thread) {
    && (th.pc.Call? ==> Access(sys.sh.url, th.pc.jwt) in sys.responses)
    && (th.pc.StoreJwt? || th.pc.StoreExpiry? ==> Access(sys.sh.url, th.pc.jwt) in sys.responses)
    && forall i :: 0 <= i < |th.trace| && th.trace[i].OpRpc? ==>
         Access(sys.sh.url, th.trace[i].jwt) in sys.responses
  }

  ghost predicate ThreadSafe(sys: System, th: Thread) {
    && TraceFits(sys.sh.url, th)
    && TokensIssued(sys, th)
    && (th.late ==> sys.sh.closed && th.trace == [] && (th.pc == Begin || th.pc == Finished(Err(ClientClosed))))
  }

  ghost predicate Safe(sys: System) {
    && Access(sys.sh.url, sys.sh.jwt) in sys.responses
    && forall t :: 0 <= t < |sys.threads| ==> ThreadSafe(sys, sys.threads[t])
  }

  lemma {:induction false} SafeThreadsStay(sys: System, sys': System, th: Thread)
    requires ThreadSafe(sys, th)
    requires sys'.sh.url == sys.sh.url && sys.responses <= sys'.responses
    requires sys.sh.closed ==> sys'.sh.closed
    ensures ThreadSafe(sys', th)
  {
    hide TraceFits;
    assert forall a :: a in sys.responses ==> a in sys'.responses;
  }

  lemma {:induction false} StepFits(parse: JwtParser, sh: Shared, th: Thread)
    requires !th.pc.Finished? && TraceFits(sh.url, th)
    ensures TraceFits(sh.url, Step(parse, sh, th).th)
  {
    if th.pc.Call? {
      CallFits(parse, sh, th);
    } else if th.pc.FetchAccess? {
      FetchFits(parse, sh, th);
    } else {
      hide ExpiryOf, Rejected, Refreshed;
    }
  }

  lemma {:induction false} CallFits(parse: JwtParser, sh: Shared, th: Thread)
    requires th.pc.Call? && TraceFits(sh.url, th)
    ensures TraceFits(sh.url, Step(parse, sh, th).th)
  {
    hide ExpiryOf;
    var trace := Step(parse, sh, th).th.trace;
    assert |trace| == |th.trace| + 1 && trace[..|th.trace|] == th.trace;
    assert trace[..1] == if th.trace == [] then trace else th.trace[..1];
  }

  lemma {:induction false} FetchFits(parse: JwtParser, sh: Shared, th: Thread)
    requires th.pc.FetchAccess? && TraceFits(sh.url, th)
    ensures TraceFits(sh.url, Step(parse, sh, th).th)
  {
    hide ExpiryOf;
    var trace := Step(parse, sh, th).th.trace;
    assert |trace| == |th.trace| + 1 && trace[..|th.trace|] == th.trace;
  }

  lemma {:induction false} StepTokens(parse: JwtParser, sys: System, th: Thread, sys': System)
    requires !th.pc.Finished? && TokensIssued(sys, th) && Access(sys.sh.url, sys.sh.jwt) in sys.responses
    requires var m := Step(parse, sys.sh, th);
             sys'.sh == m.sh && sys'.responses == sys.responses + Received(th.trace, m.th.trace)
    ensures TokensIssued(sys', Step(parse, sys.sh, th).th)
    ensures Access(sys'.sh.url, sys'.sh.jwt) in sys'.responses
  {
    hide ExpiryOf;
    assert forall a :: a in sys.responses ==> a in sys'.responses;
    if th.pc.FetchAccess? && th.env.access.Ok? {
      assert sys'.responses[|sys.responses|] == th.env.access.value;
    }
  }

  lemma {:induction false} StepSafe(parse: JwtParser, sys: System, th: Thread, sys': System)
    requires !th.pc.Finished? && ThreadSafe(sys, th) && Access(sys.sh.url, sys.sh.jwt) in sys.responses
    requires var m := Step(parse, sys.sh, th);
             sys'.sh == m.sh && sys'.responses == sys.responses + Received(th.trace, m.th.trace)
    ensures var m := Step(parse, sys.sh, th);
            ThreadSafe(sys', m.th) && sys'.sh.url == sys.sh.url && sys'.sh.closed == sys.sh.closed &&
            Access(sys'.sh.url, sys'.sh.jwt) in sys'.responses
  {
    hide TraceFits, TokensIssued;
    StepFits(parse, sys.sh, th);
    StepTokens(parse, sys, th, sys');
  }

  lemma {:induction false} ActSafe(parse: JwtParser, sys: System, a: Action)
    requires Safe(sys)
    ensures var sys' := Act(parse, sys, a);
            Safe(sys') && sys'.sh.url == sys.sh.url && (sys.sh.closed ==> sys'.sh.closed)
  {
    hide Step, ThreadSafe;
    var sys' := Act(parse, sys, a);
    match a
    case Close =>
      forall t | 0 <= t < |sys.threads| ensures ThreadSafe(sys', sys.threads[t]) {
        SafeThreadsStay(sys, sys', sys.threads[t]);
      }
    case Spawn(kind, env) =>
      forall t | 0 <= t < |sys'.threads| ensures ThreadSafe(sys', sys'.threads[t]) {
        if t < |sys.threads| {
          SafeThreadsStay(sys, sys', sys.threads[t]);
        } else {
          SpawnSafe(sys', kind, env);
        }
      }
    case Schedule(t) =>
      if t < |sys.threads| && !sys.threads[t].pc.Finished? {
        var th := sys.threads[t];
        StepSafe(parse, sys, th, sys');
        forall u | 0 <= u < |sys'.threads| ensures ThreadSafe(sys', sys'.threads[u]) {
          if u != t {
            SafeThreadsStay(sys, sys', sys.threads[u]);
          }
        }
      }
  }

  lemma {:induction false} SpawnSafe(sys: System, kind: Kind, env: Env)
    ensures ThreadSafe(sys, Spawned(kind, env, sys.sh.closed))
  {
  }

  /** Under every interleaving: the URL never changes, closing is final, the stored token came from an
      access response with that URL, and so did every token presented; a thread started after
      close issues no RPC; and what the others have issued fits `TraceFits`. */
  lemma {:induction false} EveryRunSafe(parse: JwtParser, sys: System, actions: seq<Action>)
    requires Initial(parse, sys)
    ensures var now := Run(parse, sys, actions);
            Safe(now) && now.sh.url == sys.sh.url
    decreases |actions|
  {
    hide Act, Safe;
    if actions == [] {
      InitialSafe(parse, sys);
    } else {
      EveryRunSafe(parse, sys, actions[..|actions| - 1]);
      ActSafe(parse, Run(parse, sys, actions[..|actions| - 1]), actions[|actions| - 1]);
    }
  }

  lemma {:induction false} InitialSafe(parse: JwtParser, sys: System)
    requires Initial(parse, sys)
    ensures Safe(sys)
  {
  }

  /** So no thread ever issues more than two operation RPCs and one access RPC, and the second
      operation RPC only after UNAUTHENTICATED and a refresh. */
  lemma {:induction false} RpcBounds(parse: JwtParser, sys: System, actions: seq<Action>, t: nat)
    requires Initial(parse, sys) && t < |Run(parse, sys, actions).threads|
    ensures var th := Run(parse, sys, actions).threads[t];
            && OpRpcs(th.trace) <= (if th.kind.Operation? then 2 else 0)
            && |th.trace| - OpRpcs(th.trace) <= 1
            && (OpRpcs(th.trace) == 2 ==> |th.trace| >= 2 && Refreshed(sys.sh.url, true, th.trace[..2]))
            && (th.late ==> th.trace == [])
  {
    hide Run, Initial;
    EveryRunSafe(parse, sys, actions);
    var now := Run(parse, sys, actions);
    assert ThreadSafe(now, now.threads[t]);
    CountRpcs(sys.sh.url, now.threads[t]);
  }

  lemma {:induction false} CountRpcs(url: string, th: Thread)
    requires TraceFits(url, th)
    ensures OpRpcs(th.trace) <= (if th.kind.Operation? then 2 else 0)
    ensures |th.trace| - OpRpcs(th.trace) <= 1
    ensures OpRpcs(th.trace) == 2 ==> |th.trace| >= 2 && Refreshed(url, true, th.trace[..2])
  {
    OpRpcsOfThree(th.trace);
  }

  lemma {:induction false} OpRpcsOfThree(trace: seq<Rpc>)
    requires |trace| <= 3
    ensures OpRpcs(trace)
         == (if |trace| >= 1 && trace[0].OpRpc? then 1 else 0) + (if |trace| >= 2 && trace[1].OpRpc? then 1 else 0)
            + (if |trace| == 3 && trace[2].OpRpc? then 1 else 0)
  {
    if trace == [] {
    } else {
      OpRpcsOfThree(trace[..|trace| - 1]);
    }
  }

  // ---- After close ----

  /** A thread that has done nothing, or was refused. */
  predicate NothingDone(th: Thread) {
    th.trace == [] && (th.pc == Begin || th.pc == Finished(Err(ClientClosed)))
  }

  /** A thread that has not begun to refresh, or has ended without. */
  predicate NoRefresh(th: Thread) {
    && (th.pc in {Begin, BeginForced, ReadJwt(false)} || (th.pc.Call? && !th.pc.second) || th.pc.Finished?)
    && forall k :: 0 <= k < |th.trace| ==> th.trace[k].OpRpc?
  }

  lemma {:induction false} StepWhenClosed(parse: JwtParser, sh: Shared, th: Thread)
    requires sh.closed && !th.pc.Finished?
    ensures NothingDone(th) ==> NothingDone(Step(parse, sh, th).th)
    ensures NoRefresh(th) ==> NoRefresh(Step(parse, sh, th).th)
  {
    hide ExpiryOf;
  }

  lemma {:induction false} ActWhenClosed(parse: JwtParser, sys: System, a: Action)
    ensures var sys' := Act(parse, sys, a);
            && |sys.threads| <= |sys'.threads|
            && (sys.sh.closed || a == Close ==> sys'.sh.closed)
            && (sys.sh.closed ==>
                  forall t :: 0 <= t < |sys.threads| ==>
                    && (NothingDone(sys.threads[t]) ==> NothingDone(sys'.threads[t]))
                    && (NoRefresh(sys.threads[t]) ==> NoRefresh(sys'.threads[t])))
  {
    hide NothingDone, NoRefresh, Received;
    if a.Schedule? && a.t < |sys.threads| && !sys.threads[a.t].pc.Finished? {
      StepKeepsClosed(parse, sys.sh, sys.threads[a.t]);
      if sys.sh.closed {
        StepWhenClosed(parse, sys.sh, sys.threads[a.t]);
      }
      hide Step;
    }
  }

  lemma {:induction false} StepKeepsClosed(parse: JwtParser, sh: Shared, th: Thread)
    requires !th.pc.Finished?
    ensures Step(parse, sh, th).sh.closed == sh.closed
  {
    hide ExpiryOf;
  }

  /** Once a close has happened the client stays closed, and threads that have done nothing, or have not
      begun to refresh, stay so. */
  lemma {:induction false} ClosedFrom(parse: JwtParser, sys: System, actions: seq<Action>, i: nat, n: nat)
    requires i < n <= |actions| && actions[i] == Close
    ensures var past, now := Run(parse, sys, actions[..n]), Run(parse, sys, actions);
            && past.sh.closed && now.sh.closed && |past.threads| <= |now.threads|
            && forall t :: 0 <= t < |past.threads| ==>
                 && (NothingDone(past.threads[t]) ==> NothingDone(now.threads[t]))
                 && (NoRefresh(past.threads[t]) ==> NoRefresh(now.threads[t]))
    decreases |actions|
  {
    hide Act, NothingDone, NoRefresh;
    var m := |actions| - 1;
    var init := actions[..m];
    if n < |actions| {
      ClosedFrom(parse, sys, init, i, n);
      assert init[..n] == actions[..n];
      ActWhenClosed(parse, Run(parse, sys, init), actions[m]);
    } else {
      assert actions[..n] == actions;
      if i < m {
        ClosedFrom(parse, sys, init, i, m);
        assert init[..m] == init;
      }
      ActWhenClosed(parse, Run(parse, sys, init), actions[m]);
    }
  }

  /** Whatever is started after a close never issues an RPC: in every run, wherever the close and the
      start stand in it. */
  lemma {:induction false} StartedAfterClose(parse: JwtParser, sys: System, actions: seq<Action>, i: nat, j: nat)
    requires i < j < |actions| && actions[i] == Close && actions[j].Spawn?
    ensures var t := |Run(parse, sys, actions[..j]).threads|;
            t < |Run(parse, sys, actions).threads| && NothingDone(Run(parse, sys, actions).threads[t])
  {
    assert actions[..j + 1][..j] == actions[..j];
    ClosedFrom(parse, sys, actions, i, j + 1);
  }

  /** A close also stops refreshes: a thread that has not begun to refresh by then never issues an
      access RPC. */
  lemma {:induction false} NoRefreshAfterClose(parse: JwtParser, sys: System, actions: seq<Action>, i: nat, t: nat)
    requires Initial(parse, sys) && i < |actions| && actions[i] == Close
    requires t < |Run(parse, sys, actions[..i]).threads|
    requires var pc := Run(parse, sys, actions[..i]).threads[t].pc;
             pc in {Begin, BeginForced, ReadJwt(false)} || (pc.Call? && !pc.second)
    ensures t < |Run(parse, sys, actions).threads| && NoRefresh(Run(parse, sys, actions).threads[t])
  {
    var past := Run(parse, sys, actions[..i]);
    EveryRunSafe(parse, sys, actions[..i]);
    assert ThreadSafe(past, past.threads[t]);
    assert NoRefresh(past.threads[t]);
    assert actions[..i + 1][..i] == actions[..i];
    assert Run(parse, sys, actions[..i + 1]).threads == past.threads;
    ClosedFrom(parse, sys, actions, i, i + 1);
  }

  // ---- Which stores the fields come from ----

  /** The program counter that an action advances, if any. */
  function PcAt(sys: System, a: Action): Option<Pc> {
    if a.Schedule? && a.t < |sys.threads| then Some(sys.threads[a.t].pc) else None
  }

  /** The thread that stored its token last, and the one that stored its expiry last; `None` stands
      for `init`, which stored both. */
  datatype Stores = Stores(token: Option<nat>, expiry: Option<nat>)

  function LastStores(parse: JwtParser, sys: System, actions: seq<Action>): Stores {
    if actions == [] then Stores(None, None)
    else
      var init, a := actions[..|actions| - 1], actions[|actions| - 1];
      NextStores(LastStores(parse, sys, init), Run(parse, sys, init), a)
  }

  function NextStores(last: Stores, before: System, a: Action): Stores {
    match PcAt(before, a)
    case Some(StoreJwt(_)) => last.(token := Some(a.t))
    case Some(StoreExpiry(_)) => last.(expiry := Some(a.t))
    case _ => last
  }

  /** Whether a thread, or `init`, has a token to store, and that token. */
  predicate HasToken(now: System, who: Option<nat>) {
    who.None? || (who.value < |now.threads| && now.threads[who.value].env.access.Ok?)
  }

  function TokenOf(sys: System, now: System, who: Option<nat>): string
    requires HasToken(now, who)
  {
    if who.None? then sys.sh.jwt else now.threads[who.value].env.access.value.jwt
  }

  /** The fields are those of the last stores, and threads are about to store their own tokens. */
  ghost predicate FromStores(parse: JwtParser, sys: System, now: System, last: Stores) {
    && HasToken(now, last.token) && now.sh.jwt == TokenOf(sys, now, last.token)
    && HasToken(now, last.expiry) && now.sh.jwtExp == ExpiryOf(parse, TokenOf(sys, now, last.expiry))
    && forall t :: 0 <= t < |now.threads| ==> OwnToken(now.threads[t])
  }

  ghost predicate OwnToken(th: Thread) {
    th.pc.StoreJwt? || th.pc.StoreExpiry? ==> th.env.access.Ok? && th.pc.jwt == th.env.access.value.jwt
  }

  lemma {:induction false} StepKeepsOwnToken(parse: JwtParser, sh: Shared, th: Thread)
    requires !th.pc.Finished? && OwnToken(th)
    ensures var m := Step(parse, sh, th);
            && OwnToken(m.th) && m.th.env == th.env
            && m.sh.jwt == (if th.pc.StoreJwt? then th.pc.jwt else sh.jwt)
            && m.sh.jwtExp == (if th.pc.StoreExpiry? then ExpiryOf(parse, th.pc.jwt) else sh.jwtExp)
  {
    hide ExpiryOf;
  }

  lemma {:induction false} ActFromStores(parse: JwtParser, sys: System, now: System, last: Stores, a: Action)
    requires FromStores(parse, sys, now, last)
    ensures FromStores(parse, sys, Act(parse, now, a), NextStores(last, now, a))
  {
    hide Step, ExpiryOf;
    if PcAt(now, a).Some? && !now.threads[a.t].pc.Finished? {
      assert OwnToken(now.threads[a.t]);
      StepKeepsOwnToken(parse, now.sh, now.threads[a.t]);
    }
  }

  /** In every run, under every interleaving, the stored token and the stored expiry are those of the
      last stores; so they belong together exactly when these two tokens expire at the same time. */
  lemma {:induction false} FieldsComeFromLastStores(parse: JwtParser, sys: System, actions: seq<Action>)
    requires Initial(parse, sys)
    ensures var now, last := Run(parse, sys, actions), LastStores(parse, sys, actions);
            && FromStores(parse, sys, now, last)
            && (now.sh.jwtExp == ExpiryOf(parse, now.sh.jwt) <==>
                  ExpiryOf(parse, TokenOf(sys, now, last.token)) == ExpiryOf(parse, TokenOf(sys, now, last.expiry)))
    decreases |actions|
  {
    hide Act, NextStores, ExpiryOf;
    if actions == [] {
    } else {
      var init := actions[..|actions| - 1];
      FieldsComeFromLastStores(parse, sys, init);
      ActFromStores(parse, sys, Run(parse, sys, init), LastStores(parse, sys, init), actions[|actions| - 1]);
    }
  }

  /** No two tokens, the first one included, expire at the same time. */
  ghost predicate DistinctExpiries(parse: JwtParser, sys: System, now: System) {
    forall x: Option<nat>, y: Option<nat> | HasToken(now, x) && HasToken(now, y) && x != y ::
      ExpiryOf(parse, TokenOf(sys, now, x)) != ExpiryOf(parse, TokenOf(sys, now, y))
  }

  /** The stored expiry is the stored token's if the thread that stored its token last also stored its
      expiry last; and only if, unless tokens share an expiry. */
  lemma {:induction false} ExpiryMatchesIffSameThread(parse: JwtParser, sys: System, actions: seq<Action>)
    requires Initial(parse, sys)
    ensures var now, last := Run(parse, sys, actions), LastStores(parse, sys, actions);
            && (last.token == last.expiry ==> now.sh.jwtExp == ExpiryOf(parse, now.sh.jwt))
            && (DistinctExpiries(parse, sys, now) ==>
                  (now.sh.jwtExp == ExpiryOf(parse, now.sh.jwt) <==> last.token == last.expiry))
  {
    hide Run, LastStores, ExpiryOf, TokenOf, HasToken;
    FieldsComeFromLastStores(parse, sys, actions);
  }

  // ---- Refreshes that do not overlap ----

  /** Nobody stores a token while another thread has stored one without yet storing its expiry. */
  ghost predicate NoOverlap(sys: System, a: Action) {
    a.Schedule? && a.t < |sys.threads| && sys.threads[a.t].pc.StoreJwt? ==>
      forall u :: 0 <= u < |sys.threads| ==> !sys.threads[u].pc.StoreExpiry?
  }

  ghost predicate NeverOverlaps(parse: JwtParser, sys: System, actions: seq<Action>) {
    forall n :: 0 <= n < |actions| ==> NoOverlap(Run(parse, sys, actions[..n]), actions[n])
  }

  /** No refresh is between its two stores. */
  ghost predicate Settled(sys: System) {
    forall t :: 0 <= t < |sys.threads| ==> !sys.threads[t].pc.StoreExpiry?
  }

  /** A refresh that is between its two stores is the only one and stored its token last; with none,
      one thread stored both fields last. */
  ghost predicate OneAtATime(now: System, last: Stores) {
    && (forall t :: 0 <= t < |now.threads| && now.threads[t].pc.StoreExpiry? ==> last.token == Some(t))
    && (Settled(now) ==> last.token == last.expiry)
  }

  lemma {:induction false} ActKeepsOrder(parse: JwtParser, now: System, last: Stores, a: Action)
    requires OneAtATime(now, last) && NoOverlap(now, a)
    ensures OneAtATime(Act(parse, now, a), NextStores(last, now, a))
  {
    hide ExpiryOf, Received;
    var next := Act(parse, now, a);
    if PcAt(now, a).Some? && !now.threads[a.t].pc.Finished? {
      assert forall u :: 0 <= u < |now.threads| && u != a.t ==> next.threads[u] == now.threads[u];
      StepStores(parse, now.sh, now.threads[a.t]);
      hide Step;
      if !now.threads[a.t].pc.StoreJwt? && !now.threads[a.t].pc.StoreExpiry? && Settled(next) {
        assert Settled(now);
      }
    } else if a.Spawn? {
      assert forall u :: 0 <= u < |now.threads| ==> next.threads[u] == now.threads[u];
      assert Settled(next) ==> Settled(now);
    }
  }

  /** Only storing a token leads to storing an expiry. */
  lemma {:induction false} StepStores(parse: JwtParser, sh: Shared, th: Thread)
    requires !th.pc.Finished?
    ensures Step(parse, sh, th).th.pc.StoreExpiry? <==> th.pc.StoreJwt?
  {
    hide ExpiryOf;
  }

  /** When the two stores of refreshes do not interleave, the stored expiry is the stored token's
      whenever no refresh is half done; and a half-done refresh is the only one and its token stored. */
  lemma {:induction false} ExpiryFollowsToken(parse: JwtParser, sys: System, actions: seq<Action>)
    requires Initial(parse, sys) && NeverOverlaps(parse, sys, actions)
    ensures var now, last := Run(parse, sys, actions), LastStores(parse, sys, actions);
            && OneAtATime(now, last)
            && (Settled(now) ==> now.sh.jwtExp == ExpiryOf(parse, now.sh.jwt))
            && (forall t :: 0 <= t < |now.threads| && now.threads[t].pc.StoreExpiry? ==>
                  now.threads[t].pc.jwt == now.sh.jwt)
  {
    StoresInOrder(parse, sys, actions);
    FieldsComeFromLastStores(parse, sys, actions);
    hide Run, LastStores, ExpiryOf;
    var now := Run(parse, sys, actions);
    assert forall t :: 0 <= t < |now.threads| ==> OwnToken(now.threads[t]);
  }

  lemma {:induction false} StoresInOrder(parse: JwtParser, sys: System, actions: seq<Action>)
    requires Initial(parse, sys) && NeverOverlaps(parse, sys, actions)
    ensures OneAtATime(Run(parse, sys, actions), LastStores(parse, sys, actions))
    decreases |actions|
  {
    hide Act, NoOverlap, NextStores;
    if actions == [] {
    } else {
      var init := actions[..|actions| - 1];
      assert forall n :: 0 <= n < |init| ==> actions[..n] == init[..n];
      StoresInOrder(parse, sys, init);
      assert NoOverlap(Run(parse, sys, actions[..|actions| - 1]), actions[|actions| - 1]);
      ActKeepsOrder(parse, Run(parse, sys, init), LastStores(parse, sys, init), actions[|actions| - 1]);
    }
  }

  // ---- The token of a second attempt ----

  /** The token that the action with this index stores, if any. */
  function StoredBy(parse: JwtParser, sys: System, actions: seq<Action>, m: nat): Option<string>
    requires m < |actions|
  {
    match PcAt(Run(parse, sys, actions[..m]), actions[m])
    case Some(StoreJwt(jwt)) => Some(jwt)
    case _ => None
  }

  /** Some action stored this token, when or after thread `t` stored its own. */
  ghost predicate StoredSince(parse: JwtParser, sys: System, actions: seq<Action>, t: nat, jwt: string) {
    exists n: nat, m: nat | n <= m < |actions| ::
      && actions[n] == Schedule(t) && StoredBy(parse, sys, actions, n).Some?
      && StoredBy(parse, sys, actions, m) == Some(jwt)
  }

  /** What a thread that has stored its token will present, or has. */
  ghost predicate PresentsFresh(parse: JwtParser, sys: System, actions: seq<Action>, now: System, t: nat)
    requires t < |now.threads|
  {
    var th := now.threads[t];
    && (th.pc.StoreExpiry? || th.pc == ReadJwt(true) ==> StoredSince(parse, sys, actions, t, now.sh.jwt))
    && (th.pc.Call? && th.pc.second ==> StoredSince(parse, sys, actions, t, th.pc.jwt))
    && (|th.trace| == 3 && th.trace[2].OpRpc? ==> StoredSince(parse, sys, actions, t, th.trace[2].jwt))
  }

  lemma {:induction false} StoredEarlier(
      parse: JwtParser, sys: System, actions: seq<Action>, a: Action, t: nat, jwt: string)
    requires StoredSince(parse, sys, actions, t, jwt)
    ensures StoredSince(parse, sys, actions + [a], t, jwt)
    ensures StoredBy(parse, sys, actions + [a], |actions|).Some? ==>
              StoredSince(parse, sys, actions + [a], t, StoredBy(parse, sys, actions + [a], |actions|).value)
  {
    hide Run;
    var all := actions + [a];
    var n: nat, m: nat :| n <= m < |actions| && actions[n] == Schedule(t)
                          && StoredBy(parse, sys, actions, n).Some? && StoredBy(parse, sys, actions, m) == Some(jwt);
    assert all[..n] == actions[..n] && all[..m] == actions[..m];
    assert StoredBy(parse, sys, all, n).Some? && StoredBy(parse, sys, all, m) == Some(jwt);
  }

  /** How a step moves a thread towards its second attempt. */
  lemma {:induction false} StepTowardsSecond(parse: JwtParser, sh: Shared, th: Thread)
    requires !th.pc.Finished? && TraceFits(sh.url, th)
    ensures var m := Step(parse, sh, th);
            && (m.th.pc.StoreExpiry? ==> th.pc.StoreJwt? && m.sh.jwt == th.pc.jwt)
            && (m.th.pc == ReadJwt(true) ==> th.pc.StoreExpiry? && m.sh.jwt == sh.jwt)
            && (m.th.pc.Call? && m.th.pc.second ==> th.pc == ReadJwt(true) && m.th.pc.jwt == sh.jwt)
            && (|m.th.trace| == 3 && m.th.trace[2].OpRpc? ==>
                  th.pc.Call? && th.pc.second && m.th.trace[2].jwt == th.pc.jwt)
            && (!th.pc.StoreJwt? ==> m.sh.jwt == sh.jwt)
  {
    hide ExpiryOf;
  }

  lemma {:induction false} ActPresentsFresh(parse: JwtParser, sys: System, actions: seq<Action>, a: Action, t: nat)
    requires Safe(Run(parse, sys, actions))
    requires t < |Run(parse, sys, actions + [a]).threads|
    requires forall u :: 0 <= u < |Run(parse, sys, actions).threads| ==>
               PresentsFresh(parse, sys, actions, Run(parse, sys, actions), u)
    ensures PresentsFresh(parse, sys, actions + [a], Run(parse, sys, actions + [a]), t)
  {
    var all, before := actions + [a], Run(parse, sys, actions);
    RunOn(parse, sys, actions, a);
    var now := Run(parse, sys, all);
    assert all[..|actions|] == actions;
    assert StoredBy(parse, sys, all, |actions|)
        == match PcAt(before, a) case Some(StoreJwt(jwt)) => Some(jwt) case _ => None;
    hide Run, StoredSince, Step;
    if t < |before.threads| {
      var th := before.threads[t];
      assert PresentsFresh(parse, sys, actions, before, t);
      forall jwt | StoredSince(parse, sys, actions, t, jwt)
        ensures StoredSince(parse, sys, all, t, jwt)
        ensures StoredBy(parse, sys, all, |actions|).Some? ==>
                  StoredSince(parse, sys, all, t, StoredBy(parse, sys, all, |actions|).value)
      {
        StoredEarlier(parse, sys, actions, a, t, jwt);
      }
      if PcAt(before, a).Some? && !before.threads[a.t].pc.Finished? {
        assert ThreadSafe(before, before.threads[a.t]);
        StepTowardsSecond(parse, before.sh, before.threads[a.t]);
        if a.t == t && th.pc.StoreJwt? {
          StoresOwn(parse, sys, actions, a);
        }
      }
    }
  }

  lemma {:induction false} StoresOwn(parse: JwtParser, sys: System, actions: seq<Action>, a: Action)
    requires a.Schedule? && StoredBy(parse, sys, actions + [a], |actions|).Some?
    ensures StoredSince(parse, sys, actions + [a], a.t, StoredBy(parse, sys, actions + [a], |actions|).value)
  {
    hide Run;
    var all, n := actions + [a], |actions|;
    assert n <= n < |all| && all[n] == Schedule(a.t) && StoredBy(parse, sys, all, n).Some?;
  }

  lemma {:induction false} AllPresentFresh(parse: JwtParser, sys: System, actions: seq<Action>)
    requires Initial(parse, sys)
    ensures var now := Run(parse, sys, actions);
            forall t :: 0 <= t < |now.threads| ==> PresentsFresh(parse, sys, actions, now, t)
    decreases |actions|
  {
    hide PresentsFresh;
    if actions == [] {
      assert Run(parse, sys, actions).threads == [];
    } else {
      hide Run, Initial;
      var init, a := actions[..|actions| - 1], actions[|actions| - 1];
      assert init + [a] == actions;
      AllPresentFresh(parse, sys, init);
      EveryRunSafe(parse, sys, init);
      forall t: nat | t < |Run(parse, sys, actions).threads|
        ensures PresentsFresh(parse, sys, actions, Run(parse, sys, actions), t)
      {
        ActPresentsFresh(parse, sys, init, a, t);
      }
    }
  }

  /** The token that an operation presents again was stored when or after the operation itself stored
      the one it had fetched, under every interleaving. */
  lemma {:induction false} SecondTokenIsFresh(parse: JwtParser, sys: System, actions: seq<Action>, t: nat)
    requires Initial(parse, sys) && t < |Run(parse, sys, actions).threads|
    requires OpRpcs(Run(parse, sys, actions).threads[t].trace) == 2
    ensures var trace := Run(parse, sys, actions).threads[t].trace;
            |trace| == 3 && trace[2].OpRpc? && StoredSince(parse, sys, actions, t, trace[2].jwt)
  {
    hide Run, Initial, StoredSince;
    var now := Run(parse, sys, actions);
    AllPresentFresh(parse, sys, actions);
    assert PresentsFresh(parse, sys, actions, now, t);
    EveryRunSafe(parse, sys, actions);
    assert ThreadSafe(now, now.threads[t]);
    SecondIsLast(sys.sh.url, now.threads[t]);
  }

  lemma {:induction false} SecondIsLast(url: string, th: Thread)
    requires TraceFits(url, th) && OpRpcs(th.trace) == 2
    ensures |th.trace| == 3 && th.trace[2].OpRpc?
  {
    OpRpcsOfThree(th.trace);
  }

  // ---- Overlapping refreshes ----

  lemma {:induction false} RunOn(parse: JwtParser, sys: System, actions: seq<Action>, a: Action)
    ensures Run(parse, sys, actions + [a]) == Act(parse, Run(parse, sys, actions), a)
  {
    assert (actions + [a])[..|actions|] == actions;
  }

  lemma {:induction false} RunFourTimes(parse: JwtParser, sys: System, actions: seq<Action>, a: Action)
    ensures Run(parse, sys, actions + [a, a, a, a])
            == Act(parse, Act(parse, Act(parse, Act(parse, Run(parse, sys, actions), a), a), a), a)
  {
    hide Run, Act;
    RunOn(parse, sys, actions, a);
    RunOn(parse, sys, actions + [a], a);
    RunOn(parse, sys, actions + [a] + [a], a);
    RunOn(parse, sys, actions + [a] + [a] + [a], a);
    assert actions + [a] + [a] + [a] + [a] == actions + [a, a, a, a];
  }

  /** A refresh is due: the token has no known expiry, or one that is near. */
  predicate Due(sh: Shared, now: int) {
    sh.jwtExp.None? || sh.jwtExp.value - now <= JWT_REFRESH_BUFFER_SECONDS
  }

  /** A refresh thread between its two stores. */
  function HalfDone(env: Env, access: Access): Thread {
    Thread(Refresh, env, StoreExpiry(access.jwt), [AccessRpc(Ok(access))], false)
  }

  /** Four steps take a refresh that is due to the point between its two stores. */
  lemma {:induction false} HalfRefresh(parse: JwtParser, sys: System, t: nat, env: Env, access: Access)
    requires t < |sys.threads| && sys.threads[t] == Spawned(Refresh, env, false)
    requires !sys.sh.closed && Due(sys.sh, env.now)
    requires env.access == Ok(access) && access.url == sys.sh.url
    ensures var a := Schedule(t);
            var sys' := Act(parse, Act(parse, Act(parse, Act(parse, sys, a), a), a), a);
            && sys'.sh == sys.sh.(jwt := access.jwt)
            && sys'.threads == sys.threads[t := HalfDone(env, access)]
  {
    var begun := Spawned(Refresh, env, false);
    var s1 := Act(parse, sys, Schedule(t));
    assert s1.sh == sys.sh && s1.threads[t] == begun.(pc := CheckExpiry);
    var s2 := Act(parse, s1, Schedule(t));
    assert s2.sh == sys.sh && s2.threads[t] == begun.(pc := FetchAccess);
    var s3 := Act(parse, s2, Schedule(t));
    assert s3.sh == sys.sh && s3.threads[t] == HalfDone(env, access).(pc := StoreJwt(access.jwt));
  }

  /** The newer refresh stores its expiry, then the older one. */
  lemma {:induction false} LateStore(parse: JwtParser, sys: System, older: Env, newer: Env, a: Access, b: Access)
    requires sys.threads == [HalfDone(older, a), HalfDone(newer, b)]
    ensures var end := Act(parse, Act(parse, sys, Schedule(1)), Schedule(0));
            Settled(end) && end.sh.jwt == sys.sh.jwt && end.sh.jwtExp == ExpiryOf(parse, a.jwt)
  {
    var s1 := Act(parse, sys, Schedule(1));
    assert s1.threads[0] == HalfDone(older, a) && s1.threads[1].pc == Finished(Ok(()));
  }

  /** Two refreshes, the newer of which runs between the two stores of the older. */
  function Overlapping(older: Env, newer: Env): seq<Action> {
    var o, n := Schedule(0), Schedule(1);
    [Spawn(Refresh, older), Spawn(Refresh, newer)] + [o, o, o, o] + [n, n, n, n] + [n] + [o]
  }

  lemma {:induction false} TwoRefreshes(parse: JwtParser, sys: System, older: Env, newer: Env)
    requires Initial(parse, sys)
    ensures var s := Run(parse, sys, [Spawn(Refresh, older), Spawn(Refresh, newer)]);
            s.sh == sys.sh && s.threads == [Spawned(Refresh, older, false), Spawned(Refresh, newer, false)]
  {
    RunOn(parse, sys, [], Spawn(Refresh, older));
    assert [] + [Spawn(Refresh, older)] == [Spawn(Refresh, older)];
    assert Run(parse, sys, []) == sys;
    var s1 := Act(parse, sys, Spawn(Refresh, older));
    assert s1.threads == [Spawned(Refresh, older, false)];
    RunOn(parse, sys, [Spawn(Refresh, older)], Spawn(Refresh, newer));
    assert [Spawn(Refresh, older)] + [Spawn(Refresh, newer)] == [Spawn(Refresh, older), Spawn(Refresh, newer)];
  }

  /** Such runs exist: from every new client whose token is due, two refreshes that overlap end, with
      nothing half done, in the newer token under the expiry of the older one. */
  lemma {:induction false} OverlapMismatches(
      parse: JwtParser, sys: System, older: Env, newer: Env, a: Access, b: Access)
    requires Initial(parse, sys) && Due(sys.sh, older.now) && Due(sys.sh, newer.now)
    requires older.access == Ok(a) && newer.access == Ok(b) && a.url == b.url == sys.sh.url
    ensures var end := Run(parse, sys, Overlapping(older, newer));
            Settled(end) && end.sh.jwt == b.jwt && end.sh.jwtExp == ExpiryOf(parse, a.jwt)
  {
    hide Run, Act, ExpiryOf, Settled;
    var spawns := [Spawn(Refresh, older), Spawn(Refresh, newer)];
    var o, n := Schedule(0), Schedule(1);
    TwoRefreshes(parse, sys, older, newer);
    RunFourTimes(parse, sys, spawns, o);
    HalfRefresh(parse, Run(parse, sys, spawns), 0, older, a);
    var half := spawns + [o, o, o, o];
    RunFourTimes(parse, sys, half, n);
    HalfRefresh(parse, Run(parse, sys, half), 1, newer, b);
    var both := half + [n, n, n, n];
    RunOn(parse, sys, both, n);
    RunOn(parse, sys, both + [n], o);
    LateStore(parse, Run(parse, sys, both), older, newer, a, b);
  }
}
