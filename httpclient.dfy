/** The client of package `httpclient`: a base URL, a borrowed transport and
    an append-only list of client-level middleware, with dispatch, the verb
    helpers and base-URL path resolution. */
module HttpClient {
  import opened NetHttp
  import opened Pipeline
  import opened Strings
  import Paths

  class Client {
    var transport: Transport
    var baseURL: string
    var mw: seq<Middleware>

    /** New: no middleware yet; the base URL is taken as given, without checks. */
    constructor New(transport: Transport, base: string)
      ensures this.transport == transport && baseURL == base && mw == []
    {
      this.transport := transport;
      baseURL := base;
      mw := [];
    }

    /** Use: register middleware after those already registered, in call order. */
    method Use(mws: seq<Middleware>)
      modifies this
      ensures mw == old(mw) + mws
      ensures baseURL == old(baseURL) && transport == old(transport)
    {
      mw := mw + mws;
    }

    /** Do: run the client-level middleware, then the call-level middleware
        `rmw`, returning at the first error; only when all succeed is the
        resulting request handed to the transport. The ghost `trace` records
        which middleware were called, in order. */
    method Do(req: Request, rmw: seq<Middleware>) returns (reply: Reply, ghost trace: seq<Invocation>)
      modifies transport
      ensures unchanged(this)
      ensures Dispatched(mw, rmw, req, transport.respond, old(transport.sent), transport.sent, reply, trace)
    {
      ghost var chain := mw + rmw;
      trace := [];
      var cur := req;
      for i := 0 to |mw|
        invariant transport.sent == old(transport.sent)
        invariant Run(chain[..i], req) == Ok(cur) && Invoked(chain[..i], req) == i
        invariant trace == Positions(|mw|, i)
      {
        assert chain[i] == mw[i];
        var step := mw[i](cur);
        trace := trace + [Position(|mw|, i)];
        if step.Err? {
          DispatchStops(mw, rmw, req, i, transport.respond, transport.sent);
          reply := Failed(step.error);
          return;
        }
        RunStep(chain, req, i);
        cur := step.value;
      }
      for j := 0 to |rmw|
        invariant transport.sent == old(transport.sent)
        invariant Run(chain[..|mw| + j], req) == Ok(cur) && Invoked(chain[..|mw| + j], req) == |mw| + j
        invariant trace == Positions(|mw|, |mw| + j)
      {
        assert chain[|mw| + j] == rmw[j];
        var step := rmw[j](cur);
        trace := trace + [Position(|mw|, |mw| + j)];
        if step.Err? {
          DispatchStops(mw, rmw, req, |mw| + j, transport.respond, transport.sent);
          reply := Failed(step.error);
          return;
        }
        RunStep(chain, req, |mw| + j);
        cur := step.value;
      }
      assert chain[..|chain|] == chain;
      DispatchSends(mw, rmw, req, cur, transport.respond, transport.sent);
      reply := transport.Do(cur);
    }

    /** The verb helpers Get, GetCtx, Post, PostCtx, Put, PutCtx, Delete and
        DeleteCtx: `built` is what request construction produced; an error
        there is returned with a nil response before any middleware runs. */
    method Call(built: Result<Request>, rmw: seq<Middleware>) returns (reply: Reply, ghost trace: seq<Invocation>)
      modifies transport
      ensures unchanged(this)
      ensures built.Err? ==> reply == Failed(built.error) && trace == [] && unchanged(transport)
      ensures built.Ok? ==>
                Dispatched(mw, rmw, built.value, transport.respond, old(transport.sent), transport.sent, reply, trace)
    {
      match built
      case Err(e) =>
        reply, trace := Failed(e), [];
      case Ok(req) =>
        reply, trace := Do(req, rmw);
    }

    /** Path: a URL starting with "http" is used as it is; otherwise the base
        without its trailing slashes, alone for an empty path, or path.Join-ed
        with the path stripped of its leading slashes. */
    function Path(url: string): (r: string)
      reads this
      ensures HasPrefix(url, "http") ==> r == url
      ensures url == [] ==> r <= baseURL && (r == [] || r[|r| - 1] != '/')
      ensures !HasPrefix(url, "http") && url != [] && r != [] ==> Paths.IsClean(r)
    {
      if HasPrefix(url, "http") then url
      else
        var base := TrimRight(baseURL, '/');
        if url == [] then base else Paths.Join(base, TrimLeft(url, '/'))
    }

    /** Pathf, given the path its format string and arguments produce: an
        "http"-prefixed result of formatting is used as it is; an empty one
        gives a prefix of the base; any other gives "" or a clean path. */
    function Pathf(formatted: string): (r: string)
      reads this
      ensures HasPrefix(formatted, "http") ==> r == formatted
      ensures formatted == [] ==> r <= baseURL
      ensures !HasPrefix(formatted, "http") && formatted != [] && r != [] ==> Paths.IsClean(r)
    {
      Path(formatted)
    }

    /** Path corrected in its two defects: only a URL with an "http://" or
        "https://" scheme is taken as it is, and the relative path is appended
        to the slash-trimmed base with exactly one slash, leaving the base (and
        the "//" of its scheme) as it is. It is plain string joining, so it
        also differs from Path wherever path.Clean would have changed the
        result: "." and ".." in the path are not resolved, repeated slashes
        inside the path are not collapsed, and an empty base gives a leading
        "/". IntendedPathAgreesWhenClean states where the two agree. */
    function IntendedPath(url: string): (r: string)
      reads this
      ensures HasPrefix(url, "http://") || HasPrefix(url, "https://") ==> r == url
      ensures !(HasPrefix(url, "http://") || HasPrefix(url, "https://")) ==>
                var base := TrimRight(baseURL, '/');
                && base <= r
                && (url != [] ==>
                      && |base| < |r| && |r| - |base| - 1 <= |url|
                      && r[|base|] == '/' && (|r| == |base| + 1 || r[|base| + 1] != '/')
                      && r[|base| + 1..] == url[|url| - (|r| - |base| - 1)..])
    {
      if HasPrefix(url, "http://") || HasPrefix(url, "https://") then url
      else
        var base := TrimRight(baseURL, '/');
        if url == [] then base else base + "/" + TrimLeft(url, '/')
    }
  }

  /** A URL with the "http" prefix is returned unchanged, whatever the base. */
  lemma PathAbsolute(c: Client, url: string)
    requires HasPrefix(url, "http")
    ensures c.Path(url) == url
  {
  }

  /** The empty path gives the base with all its trailing slashes removed. */
  lemma PathEmpty(c: Client)
    ensures var r := c.Path("");
            && r <= c.baseURL
            && (forall i :: |r| <= i < |c.baseURL| ==> c.baseURL[i] == '/')
            && (r == [] || r[|r| - 1] != '/')
  {
  }

  /** Any other path is joined to the slash-trimmed base: the result is "" only
      when both trimmed parts are empty, and is otherwise a clean path. */
  lemma PathRelative(c: Client, url: string)
    requires !HasPrefix(url, "http") && url != []
    ensures var base, rel := TrimRight(c.baseURL, '/'), TrimLeft(url, '/');
            && c.Path(url) == Paths.Join(base, rel)
            && (base == [] || base[|base| - 1] != '/')
            && (rel == [] || rel[0] != '/')
            && (c.Path(url) == [] <==> base == [] && rel == [])
            && (c.Path(url) != [] ==> Paths.IsClean(c.Path(url)))
  {
  }

  /** Extra slashes at the end of the base or the start of a relative path
      change nothing. */
  lemma PathIgnoresJoinSlashes(c: Client, d: Client, url: string)
    requires d.baseURL == c.baseURL + "/"
    requires !HasPrefix(url, "http") && url != []
    ensures d.Path("/" + url) == c.Path(url)
  {
    TrimAbsorbsCut(c.baseURL, '/');
    TrimAbsorbsCut(url, '/');
  }

  /** Joining collapses every run of slashes: for a non-empty relative path
      the result never holds two adjacent slashes, even where the base did
      (as in the "//" after a scheme). */
  lemma PathHasNoDoubleSlash(c: Client, url: string)
    requires !HasPrefix(url, "http") && url != []
    ensures var r := c.Path(url);
            forall i :: 0 <= i < |r| - 1 ==> !(r[i] == '/' && r[i + 1] == '/')
  {
    var base, rel := TrimRight(c.baseURL, '/'), TrimLeft(url, '/');
    if |base| + |rel| != 0 {
      Paths.CleanHasNoDoubleSlash(if base == [] then rel else base + "/" + rel);
    }
  }
}

