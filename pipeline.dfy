/** What a dispatch does with its middleware, as functions of the chain and
    the request: the chain is folded left to right, each step receiving the
    request the previous one produced, and the first error ends the fold. */
module Pipeline {
  import opened NetHttp

  /** `ClientMiddleware`: a request-rewriting step that may fail. */
  type Middleware = Request -> Result<Request>

  /** The request after running `chain` on `req`, or the first error raised. */
  function Run(chain: seq<Middleware>, req: Request): (r: Result<Request>)
    ensures r.Err? ==> chain != []
  {
    if chain == [] then Ok(req)
    else
      match chain[0](req)
      case Err(e) => Err(e)
      case Ok(next) => Run(chain[1..], next)
  }

  /** How many middleware of `chain` are called when it runs on `req`:
      all of them, or up to and including the first that fails. */
  function Invoked(chain: seq<Middleware>, req: Request): (n: nat)
    ensures n <= |chain|
    ensures chain != [] ==> n >= 1
  {
    if chain == [] then 0
    else
      match chain[0](req)
      case Err(_) => 1
      case Ok(next) => 1 + Invoked(chain[1..], next)
  }

  /** Running `a + b` is running `a`, then, only if that succeeded, running `b`
      on its result: the two parts are never interleaved. */
  lemma {:induction false} RunAppend(a: seq<Middleware>, b: seq<Middleware>, req: Request)
    ensures Run(a + b, req) == (match Run(a, req) case Ok(r) => Run(b, r) case Err(e) => Err(e))
    ensures Invoked(a + b, req) ==
            Invoked(a, req) + (match Run(a, req) case Ok(r) => Invoked(b, r) case Err(_) => 0)
  {
    if a != [] {
      assert (a + b)[0] == a[0] && (a + b)[1..] == a[1..] + b;
      match a[0](req)
      case Err(_) =>
      case Ok(next) => RunAppend(a[1..], b, next);
    } else {
      assert a + b == b;
    }
  }

  /** Adding one middleware at the end adds one step to the fold. */
  lemma RunSnoc(chain: seq<Middleware>, m: Middleware, req: Request)
    ensures Run(chain + [m], req) == (match Run(chain, req) case Ok(r) => m(r) case Err(e) => Err(e))
    ensures Invoked(chain + [m], req) == Invoked(chain, req) + (if Run(chain, req).Ok? then 1 else 0)
  {
    RunAppend(chain, [m], req);
    assert [m][1..] == [];
  }

  /** When the first k middleware succeed and the k-th succeeds too, the
      first k + 1 succeed, having all been called. */
  lemma RunStep(chain: seq<Middleware>, req: Request, k: nat)
    requires k < |chain|
    requires Run(chain[..k], req).Ok? && Invoked(chain[..k], req) == k
    requires chain[k](Run(chain[..k], req).value).Ok?
    ensures Run(chain[..k + 1], req) == chain[k](Run(chain[..k], req).value)
    ensures Invoked(chain[..k + 1], req) == k + 1
  {
    RunSnoc(chain[..k], chain[k], req);
    assert chain[..k] + [chain[k]] == chain[..k + 1];
  }

  /** When the k-th middleware fails after every earlier one succeeded, the
      whole chain fails with that very error and nothing after it runs. */
  lemma FirstErrorStops(chain: seq<Middleware>, req: Request, k: nat)
    requires k < |chain|
    requires Run(chain[..k], req).Ok?
    requires chain[k](Run(chain[..k], req).value).Err?
    ensures Run(chain, req) == chain[k](Run(chain[..k], req).value)
    ensures Invoked(chain, req) == k + 1
  {
    RunAppend(chain[..k], chain[k..], req);
    assert chain[..k] + chain[k..] == chain;
    assert chain[k..][0] == chain[k];
    assert Invoked(chain[k..], Run(chain[..k], req).value) == 1;
    SuccessRunsAll(chain[..k], req);
  }

  /** An error from the chain is exactly the error of the last middleware
      called, all earlier ones having succeeded. */
  lemma {:induction false} ErrorHasCause(chain: seq<Middleware>, req: Request)
    requires Run(chain, req).Err?
    ensures var k := Invoked(chain, req) - 1;
            && 0 <= k < |chain|
            && Run(chain[..k], req).Ok?
            && chain[k](Run(chain[..k], req).value) == Run(chain, req)
  {
    match chain[0](req)
    case Err(_) =>
      assert chain[..0] == [];
    case Ok(next) =>
      ErrorHasCause(chain[1..], next);
      var k := Invoked(chain[1..], next) - 1;
      assert chain[..k + 1][0] == chain[0] && chain[..k + 1][1..] == chain[1..][..k];
      assert chain[1..][k] == chain[k + 1];
  }

  /** A chain that succeeds has called every middleware, each on the request
      the previous one produced. */
  lemma {:induction false} SuccessRunsAll(chain: seq<Middleware>, req: Request)
    requires Run(chain, req).Ok?
    ensures Invoked(chain, req) == |chain|
    ensures forall k :: 0 <= k < |chain| ==>
              Run(chain[..k], req).Ok? && chain[k](Run(chain[..k], req).value) == Run(chain[..k + 1], req)
  {
    forall k | 0 <= k < |chain|
      ensures Run(chain[..k], req).Ok? && chain[k](Run(chain[..k], req).value) == Run(chain[..k + 1], req)
    {
      RunAppend(chain[..k], chain[k..], req);
      assert chain[..k] + chain[k..] == chain;
      RunSnoc(chain[..k], chain[k], req);
      assert chain[..k] + [chain[k]] == chain[..k + 1];
    }
    if chain != [] {
      var next := chain[0](req).value;
      SuccessRunsAll(chain[1..], next);
    }
  }

  /** Which level a middleware call belongs to. */
  datatype Level = ClientLevel | CallLevel

  /** One middleware call, by level and by position within that level. */
  datatype Invocation = Invocation(level: Level, index: nat)

  /** The i-th call of a dispatch whose client has `clientCount` middleware:
      the client-level ones come first, the call-level ones after. */
  function Position(clientCount: nat, i: nat): Invocation {
    if i < clientCount then Invocation(ClientLevel, i) else Invocation(CallLevel, i - clientCount)
  }

  /** The first `count` calls of a dispatch whose client has `clientCount` middleware. */
  function Positions(clientCount: nat, count: nat): (ps: seq<Invocation>)
    ensures |ps| == count
  {
    if count == 0 then [] else Positions(clientCount, count - 1) + [Position(clientCount, count - 1)]
  }

  /** The calls of a dispatch list client-level middleware in registration
      order, then call-level middleware in the order supplied, never
      interleaved. */
  lemma {:induction false} PositionsInOrder(clientCount: nat, count: nat)
    ensures forall k :: 0 <= k < count ==> Positions(clientCount, count)[k] == Position(clientCount, k)
    ensures forall i, j :: 0 <= i < j < count && Positions(clientCount, count)[i].level == CallLevel ==>
              Positions(clientCount, count)[j].level == CallLevel
    ensures forall i, j :: 0 <= i < j < count && Positions(clientCount, count)[i].level == Positions(clientCount, count)[j].level ==>
              Positions(clientCount, count)[i].index < Positions(clientCount, count)[j].index
  {
    if count > 0 {
      PositionsInOrder(clientCount, count - 1);
    }
  }

  /** The outcome of a dispatch through client-level middleware `clientLevel`
      and call-level middleware `callLevel`: `trace` lists the calls made, in
      order; if a middleware failed, the reply is a nil response with its
      error and the transport log is untouched; otherwise the transport was
      handed the final request exactly once and its reply is returned as is. */
  ghost predicate Dispatched(clientLevel: seq<Middleware>, callLevel: seq<Middleware>, req: Request,
                             respond: Request -> Reply, sentBefore: seq<Request>, sentAfter: seq<Request>,
                             reply: Reply, trace: seq<Invocation>)
    ensures Dispatched(clientLevel, callLevel, req, respond, sentBefore, sentAfter, reply, trace) ==>
              sentBefore <= sentAfter && |sentAfter| <= |sentBefore| + 1
  {
    var chain := clientLevel + callLevel;
    && trace == Positions(|clientLevel|, Invoked(chain, req))
    && match Run(chain, req)
       case Err(e) => reply == Failed(e) && sentAfter == sentBefore
       case Ok(final) => reply == respond(final) && sentAfter == sentBefore + [final]
  }

  /** A dispatch abandoned at the k-th middleware of the combined chain, all
      earlier ones having succeeded: a nil response with that middleware's
      error, and no send. */
  lemma DispatchStops(clientLevel: seq<Middleware>, callLevel: seq<Middleware>, req: Request, k: nat,
                      respond: Request -> Reply, sent: seq<Request>)
    requires k < |clientLevel + callLevel|
    requires Run((clientLevel + callLevel)[..k], req).Ok?
    requires (clientLevel + callLevel)[k](Run((clientLevel + callLevel)[..k], req).value).Err?
    ensures var e := (clientLevel + callLevel)[k](Run((clientLevel + callLevel)[..k], req).value).error;
            Dispatched(clientLevel, callLevel, req, respond, sent, sent, Failed(e), Positions(|clientLevel|, k + 1))
  {
    FirstErrorStops(clientLevel + callLevel, req, k);
  }

  /** A dispatch whose middleware all succeeded: one send of the final request,
      and the transport's reply. */
  lemma DispatchSends(clientLevel: seq<Middleware>, callLevel: seq<Middleware>, req: Request, final: Request,
                      respond: Request -> Reply, sent: seq<Request>)
    requires Run(clientLevel + callLevel, req) == Ok(final)
    ensures Dispatched(clientLevel, callLevel, req, respond, sent, sent + [final], respond(final),
                       Positions(|clientLevel|, |clientLevel + callLevel|))
  {
    SuccessRunsAll(clientLevel + callLevel, req);
  }

  /** With no middleware at either level, the transport receives the request
      exactly as it was given, and nothing else is called. */
  lemma NoMiddlewareSendsRequest(req: Request, respond: Request -> Reply, sentBefore: seq<Request>,
                                 sentAfter: seq<Request>, reply: Reply, trace: seq<Invocation>)
    requires Dispatched([], [], req, respond, sentBefore, sentAfter, reply, trace)
    ensures sentAfter == sentBefore + [req] && reply == respond(req) && trace == []
  {
    var none: seq<Middleware> := [];
    assert none + none == none;
  }
}
