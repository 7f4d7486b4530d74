# gkit `httpclient` in Dafny

This project models the `httpclient` package of gkit. The package is a small HTTP
client. A `Client` holds a borrowed `*http.Client` (the transport), a base URL
and a list of client-level middleware. A middleware is a function
`func(*http.Request) (*http.Request, error)`.

- `Do` threads a request through the client-level middleware, then through the
  middleware given to that call, and stops at the first error. Only a request
  that got through every middleware is handed to the transport.
- The verb helpers (`Get`, `Post`, `Put`, `Delete` and their `...Ctx` forms)
  build a request and dispatch it. If building fails, they return that error.
- `Path` joins a relative path to the base URL with `strings` and `path.Join`.
  `Pathf` formats a path first and then calls `Path`.

The project is organised as follows.

- `nethttp.dfy` (module `NetHttp`) has the request, response, error and reply
  values. It also has the `Transport` class: a fixed `respond` function and a log
  `sent` of every request handed to it.
- `pipeline.dfy` (module `Pipeline`) has the specification of dispatch as
  functions of the middleware chain:
  - `Run` is the fold with early exit.
  - `Invoked` is how many middleware are called.
  - `Positions` is the ordered trace of those calls.
  - `Dispatched` ties these to the reply and to the transport log.
- `httpclient.dfy` (module `HttpClient`) has the `Client` class:
  - `New` and `Use`.
  - `Do`, with its two loops, proved against `Dispatched`.
  - `Call`, which stands for the eight verb helpers.
  - `Path` and `Pathf`, with the lemmas about them.
- `strings.dfy` (module `Strings`) and `paths.dfy` (module `Paths`) model Go's
  `strings.HasPrefix` / `TrimLeft` / `TrimRight` and `path.Join` / `path.Clean`.
  `path.Clean` is written from its documented lexical rules. Split/join round
  trips, idempotence and "no two adjacent slashes" are proved about it.
- `findings.dfy` (module `PathJoinBehaviour`) covers two behaviours of `Path`
  that go against its doc comment (httpclient/httpclient.go:126-127): it should
  "safely join the base URL and the provided path" into "a string that can be
  used in a request". It also has a corrected definition, `Client.IntendedPath`.
  That definition is plain string joining, so it also leaves "." and ".." and
  repeated slashes inside the path alone, and puts a leading "/" after an
  empty base. The model of `Path` itself follows the code (see Findings).

## Model

| member | source | states |
|---|---|---|
| HttpClient.Client.New | httpclient/httpclient.go:23-29 | the new client holds the given transport and exactly the given base URL (no validation), and no middleware |
| HttpClient.Client.Use | httpclient/httpclient.go:31-33 | the middleware list becomes the old list followed by the new middleware in call order; base URL and transport are unchanged |
| HttpClient.Client.Do | httpclient/httpclient.go:99-124 | the client itself is unchanged. If a middleware fails, the reply is a nil response with that error and the transport log is untouched. Otherwise the transport was handed the fully composed request exactly once and its reply is returned as is. The ghost trace lists the middleware called, client-level first |
| HttpClient.Client.Call | httpclient/httpclient.go:35-97 | a request-construction error is returned with a nil response, no middleware is called and the transport is untouched; a built request is dispatched as by Do |
| HttpClient.Client.Path | httpclient/httpclient.go:128-139 | an "http"-prefixed URL is returned as it is; the empty path gives a prefix of the base that does not end in a slash; any other path gives "" or a clean path |
| HttpClient.Client.IntendedPath | httpclient/httpclient.go:126-139 | corrected Path: only an "http://" or "https://" URL is returned as it is; otherwise the trimmed base is kept intact as a prefix, and a non-empty path follows it after exactly one slash as a suffix of the given path. Being plain string joining, it also differs from Path where path.Clean would act: it does not resolve "." or "..", does not collapse repeated slashes inside the path, and puts a leading "/" after an empty base |
| HttpClient.Client.Pathf | httpclient/httpclient.go:141-146 | on an already-formatted path: an "http"-prefixed one is returned as is, an empty one gives a prefix of the base, any other gives "" or a clean path |
| HttpClient.PathAbsolute | httpclient/httpclient.go:129-131 | any URL beginning with "http" is returned unchanged, whatever the base |
| HttpClient.PathEmpty | httpclient/httpclient.go:133-136 | the empty path gives the base with every trailing slash removed and nothing else; the result does not end in a slash |
| HttpClient.PathRelative | httpclient/httpclient.go:133-138 | any other path is Join(TrimRight(base), TrimLeft(url)); the base part does not end with a slash and the relative part does not begin with one; the result is "" exactly when both parts are empty, and is otherwise clean |
| HttpClient.PathIgnoresJoinSlashes | httpclient/httpclient.go:133-138 | an extra slash at the end of the base or at the start of the path changes nothing |
| HttpClient.PathHasNoDoubleSlash | httpclient/httpclient.go:138 | the joined result never has two adjacent slashes, even where the base had them |
| NetHttp.Transport.constructor | httpclient/httpclient.go:18 | a transport answers by its fixed function and has been sent nothing |
| NetHttp.Transport.Do | httpclient/httpclient.go:123 | sending appends the request to the log and returns the transport's answer to it |
| Pipeline.Run | httpclient/httpclient.go:107-121 | the fold of the middleware chain with early exit; only a non-empty chain can fail |
| Pipeline.Dispatched | httpclient/httpclient.go:99-124 | the outcome of a dispatch; under it the transport log only grows, and by at most one request |
| Pipeline.Invoked | httpclient/httpclient.go:107-121 | the number of middleware called is at most the length of the chain, and at least one when the chain is not empty |
| Pipeline.RunAppend | httpclient/httpclient.go:107-121 | running the client-level chain followed by the call-level chain is running the first and, only if it succeeded, the second on its result; the calls add up and never interleave |
| Pipeline.RunSnoc | httpclient/httpclient.go:115-121 | appending one middleware adds one step, taken only if the chain before it succeeded |
| Pipeline.RunStep | httpclient/httpclient.go:109-113 | when the first k middleware succeed and the next one succeeds too, the first k+1 succeed and all k+1 were called |
| Pipeline.FirstErrorStops | httpclient/httpclient.go:109-112 | if the k-th middleware fails after all earlier ones succeeded, the whole chain fails with that very error and exactly k+1 middleware were called |
| Pipeline.ErrorHasCause | httpclient/httpclient.go:109-112 | every error from the chain is the error of the last middleware called, all earlier ones having succeeded |
| Pipeline.SuccessRunsAll | httpclient/httpclient.go:107-121 | a successful chain called every middleware, each on the request the previous one produced |
| Pipeline.Positions | httpclient/httpclient.go:107-121 | the trace of the first n calls has n entries |
| Pipeline.PositionsInOrder | httpclient/httpclient.go:99-105 | the labels of the trace: client-level entries first by index, then call-level entries by index, never interleaved. That the middleware actually run in this order comes from Do running Run on the client-level chain followed by the call-level chain, as RunAppend states |
| Pipeline.DispatchStops | httpclient/httpclient.go:117-120 | a dispatch abandoned at a failing middleware replies with a nil response and that error, sends nothing, and traced exactly the calls up to it |
| Pipeline.DispatchSends | httpclient/httpclient.go:123 | a dispatch whose middleware all succeed sends the final request once and replies with the transport's answer |
| Pipeline.NoMiddlewareSendsRequest | httpclient/httpclient.go:107-123 | with no middleware at either level the transport receives the original request unchanged and nothing is called |
| Strings.HasPrefix | httpclient/httpclient.go:129 | `s` begins with `prefix` exactly when `prefix` is a prefix of `s` as a sequence |
| Strings.TrimLeft | httpclient/httpclient.go:138 | the result is a suffix of the input, everything removed is the cut character, and the result does not begin with it |
| Strings.TrimRight | httpclient/httpclient.go:133 | the result is a prefix of the input, everything removed is the cut character, and the result does not end with it |
| Strings.TrimAbsorbsCut | httpclient/httpclient.go:133-138 | one more cut character on the trimmed side gives the same result |
| Paths.Split | httpclient/httpclient.go:138 | splitting gives at least one element, and no element holds a slash |
| Paths.SplitAtSlash | httpclient/httpclient.go:138 | splitting at a slash splits the two sides independently |
| Paths.SplitPlain | httpclient/httpclient.go:138 | a string with no slash is a single element |
| Paths.JoinSplit | httpclient/httpclient.go:138 | joining the elements of a split with slashes gives back the original string |
| Paths.JoinAppend | httpclient/httpclient.go:138 | joining two lists of elements puts exactly one slash between them |
| Paths.SplitJoin | httpclient/httpclient.go:138 | splitting a join of slash-free elements gives back the elements |
| Paths.Resolve | httpclient/httpclient.go:138 | the element loop of path.Clean keeps at most one name per input element, and in a rooted path, starting from a stack without "..", never keeps ".." |
| Paths.ResolveKeepsClean | httpclient/httpclient.go:138 | resolving elements onto a clean stack keeps it clean: no empty or "." names, ".." only in front and never when rooted |
| Paths.JoinSlashStart | httpclient/httpclient.go:138 | a join begins with the first character of its first element |
| Paths.CleanFromElements | httpclient/httpclient.go:138 | joining clean elements, after a slash when rooted, gives a clean path that does not otherwise begin with a slash |
| Paths.ResolveClean | httpclient/httpclient.go:138 | resolving elements that are already clean keeps every one of them |
| Paths.Clean | httpclient/httpclient.go:138 | path.Clean returns a non-empty clean path, rooted exactly when its input is |
| Paths.CleanFixesClean | httpclient/httpclient.go:138 | cleaning a clean path returns it unchanged |
| Paths.CleanKeepsNames | httpclient/httpclient.go:138 | cleaning keeps a path's meaning: the element loop keeps the same names for the cleaned path as for the original |
| Paths.CleanIdempotent | httpclient/httpclient.go:138 | cleaning twice is cleaning once |
| Paths.CleanHasNoDoubleSlash | httpclient/httpclient.go:138 | a cleaned path never has two adjacent slashes |
| Paths.JoinNoDoubleSlash | httpclient/httpclient.go:138 | joining non-empty slash-free elements never puts two slashes together, nor a slash at either end |
| Paths.Join | httpclient/httpclient.go:138 | the join is "" exactly when both parts are empty, and otherwise a clean path |
| PathJoinBehaviour.SplitFirstNonEmpty | httpclient/httpclient.go:138 | a path whose first element is non-empty does not start with a slash |
| PathJoinBehaviour.TrimHostBase | httpclient/httpclient.go:133 | a base "scheme//host/" is trimmed to "scheme//host" |
| PathJoinBehaviour.SplitSchemeURL | httpclient/httpclient.go:138 | the elements of "scheme//host/path" have an empty one between the scheme's two slashes |
| PathJoinBehaviour.ResolveSchemeURL | httpclient/httpclient.go:138 | cleaning the elements of "scheme//host/path" keeps every name and drops the empty one |
| PathJoinBehaviour.CleanRelative | httpclient/httpclient.go:138 | cleaning a relative path that keeps some name joins the kept names |
| PathJoinBehaviour.CleanMergesSchemeSlashes | httpclient/httpclient.go:138 | cleaning "scheme//host/path" gives "scheme/host/path" |
| PathJoinBehaviour.PathDropsSchemeSlash | httpclient/httpclient.go:133-138 | with base "scheme//host/", Path("/path") is "scheme/host/path" and never "scheme//host/path" |
| PathJoinBehaviour.PathCollapsesSchemeSlashes | httpclient/httpclient.go:133-138 | with base "http://base/", Path("/a/b") is "http:/base/a/b" |
| PathJoinBehaviour.PathPassesHttpPrefixedRelative | httpclient/httpclient.go:129-131 | with base "http://base", the relative path "httpdocs/index" is returned unchanged |
| PathJoinBehaviour.IntendedPathKeepsScheme | httpclient/httpclient.go:126-139 | the corrected join of base "scheme//host/" and "/path" is "scheme//host/path" |
| PathJoinBehaviour.IntendedPathJoinsURL | httpclient/httpclient.go:126-139 | the corrected join of base "http://base/" and "/a/b" is "http://base/a/b" |
| PathJoinBehaviour.IntendedPathJoinsHttpPrefixedRelative | httpclient/httpclient.go:126-139 | the corrected join of base "http://base" and "httpdocs/index" is "http://base/httpdocs/index" |
| PathJoinBehaviour.IntendedPathAgreesWhenClean | httpclient/httpclient.go:128-139 | the code and the corrected join agree on every relative path that does not start with "http", when the trimmed base is not empty and the joined form is already clean |

## Left out

- `DecodeJSON` (httpclient/httpclient.go:149-157) is not modelled. It relies on reflection-driven JSON decoding of a byte stream. On an error it returns whatever the variable `zero` holds at that point, possibly partly decoded, together with the error.
- What the transport does on the network (httpclient/httpclient.go:123) is not modelled. The transport is a fixed function from the request it receives to the reply it returns, plus a log of the requests handed to it.
- Request construction by `http.NewRequest` and `http.NewRequestWithContext` is not modelled: URL parsing, method validation, body readers, and context cancellation and deadlines. The verb helpers are modelled by one method, `Client.Call`, which takes the construction result as an input that is either a request or an error. The verb and the payload only matter inside construction.
- HttpClient.Client.Pathf: `fmt.Sprintf` is not modelled. `Pathf` takes the already-formatted string.
- Middleware are opaque functions that return either a request or an error. The model does not capture a Go middleware that returns a nil request with a nil error. It does not capture a middleware that mutates the shared `*http.Request` in place: requests are values.
- Nil values are not modelled: `Transport`, `Middleware` and `Request` cannot be null in Dafny. In Go each of these cases panics:
  - `New(nil, base)` (httpclient/httpclient.go:23) accepts a nil `*http.Client`, and any later dispatch that gets through every middleware panics at line 123.
  - A nil middleware passed to `Use` (line 32) panics when `Do` calls it at line 109 or 117.
  - `Do(nil, nil)` hands a nil request to the transport, which panics.
- There is no concurrency between `Use` and `Do` (the package has no locking). The model is sequential.
- Strings.TrimLeft and Strings.TrimRight take one cut character, not a cut set. `Client.Path` only ever passes "/".
- Paths.Join takes exactly two elements, the form `Client.Path` uses. Go's variadic `path.Join` is not modelled.

## Findings

| source | as written | input that shows it | evidently intended | confidence | as-written member | corrected member |
|---|---|---|---|---|---|---|
| httpclient/httpclient.go:138 | `path.Join` cleans the whole joined string, so it also collapses the "//" after the base URL's scheme | base "http://base/", `Path("/a/b")` gives "http:/base/a/b" | "http://base/a/b": the base kept as it is and one slash at the join point | not executed; high (follows from the documented rules of `path.Clean`) | PathJoinBehaviour.PathCollapsesSchemeSlashes | PathJoinBehaviour.IntendedPathJoinsURL |
| httpclient/httpclient.go:129 | the absolute-URL test is the bare prefix "http" | base "http://base", `Path("httpdocs/index")` gives "httpdocs/index" | "http://base/httpdocs/index": only an "http://" or "https://" scheme marks an absolute URL | not executed; medium | PathJoinBehaviour.PathPassesHttpPrefixedRelative | PathJoinBehaviour.IntendedPathJoinsHttpPrefixedRelative |
