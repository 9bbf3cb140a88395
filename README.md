# Client decoration pipeline, modelled in Dafny

This project models the client-decoration pipeline of `decorator-simplicity/main.go`.
A `Client` sends a request and returns a `(response, error)` pair. A `Decorator`
turns a client into another client. `Decorate(c, ds...)` folds a list of
decorators over a base client. The pipeline has two decorators:

- `Header(name, value)` adds one value to the request's header map and then
  delegates once. `Authorization(token)` is `Header("Authorization", token)`.
- `FaultTolerance(attempts, backoff)` calls the inner client for
  `i = 0 .. attempts`. It stops at the first reply whose error is nil, sleeps
  `backoff * i` after every failed call, and returns the last pair.

The model is split into three files:

- `header.dfy` (module `HttpHeader`): header maps (`map<string, seq<string>>`).
  `AddValue` is `http.Header.Add`, which files a value under the canonical
  form of the field name (`CanonicalKey`). The `Request` class holds the
  header map that the decorators change in place.
- `client.dfy` (module `Decorators`):
  - `Decorator` is the datatype `Header(name, value) | FaultTolerance(attempts, backoff)`.
  - A client is the nested value `Base | Wrapped(layer, inner)` that
    `Decorate` builds. `Chain` is the fold as a function. `Decorate` is the
    source's loop, proved equal to `Chain`.
  - `Run` and `Retrying` give the meaning of one call as a function of a
    `World`. A `World` holds the request header, the log of headers the
    transport received, and the trace of sleeps.
  - The method `Do` performs the call imperatively. The header layer calls
    `Request.AddHeader`, the base is a `ScriptedClient`, and sleeps go to a
    `Clock`. The retry layer is a `while` loop. `Do` is proved to agree with `Run`.
- `laws.dfy` (module `DecoratorLaws`): lemmas about the fold order, header
  additivity, and the retry layer's call count, backoff schedule and result.
  The retry laws are proved on `Loop`, the retry loop over a client without a
  retry layer of its own, where each iteration is one transport call.
  `RetryingLoop` carries them over to `Retrying`.

The real HTTP transport (`http.DefaultClient`) becomes a `ScriptedClient`.
Its n-th call, counted over the whole run, answers `script(n)`. Sleeping
appends the duration to a trace and does not wait. Durations are
`time.Duration` nanosecond counts, kept as unbounded `int`.

What the code does, and the model with it:

- **Layer order.** `Decorate` decorates the client "with all the given
  Decorators, in order" (`decorator-simplicity/main.go:33`): each decorator
  wraps the client built by the ones before it. The last-listed decorator is
  therefore the outermost layer and runs first. So
  `Decorate(base, Header("X","1"), Header("X","2"))` sends "X" with the values
  "2" then "1" (`TwoHeadersOrder`).
- **Sleeps.** The retry loop sleeps `backoff * i` after every failed attempt,
  the last one included.
- **Cancellation.** The retry loop has no cancellation handling.
- **Negative attempts.** `attempts` may be negative. Then the loop body never
  runs and the result is `(nil, nil)`.

## Model

| member | source | states |
|---|---|---|
| `HttpHeader.CanonicalFrom` | decorator-simplicity/main.go:66 | The case pass of `Header.Add`'s key canonicalisation keeps the length and changes only letter case. The first character is upper-cased when it starts a word, and every later one is upper-cased exactly when it follows a hyphen. |
| `HttpHeader.CanonicalKey` | decorator-simplicity/main.go:66 | The key `Header.Add` files under has the name's length and differs from it only in letter case. A token name comes out canonical; any other name is left unchanged. |
| `HttpHeader.CanonicalFromFixed` | decorator-simplicity/main.go:66 | A name whose letters are already in canonical case is unchanged by the case pass. |
| `HttpHeader.CanonicalKeyFixed` | decorator-simplicity/main.go:66 | A canonical token name is its own key. |
| `HttpHeader.CanonicalKeyIdempotent` | decorator-simplicity/main.go:66 | Canonicalising a key twice is the same as canonicalising it once. |
| `HttpHeader.AddValue` | decorator-simplicity/main.go:66 | `r.Header.Add(name, value)` appends `value` after the existing values of the canonical key. It adds only that key, and every other field keeps its values. |
| `HttpHeader.Request.AddHeader` | decorator-simplicity/main.go:66 | Changes the request's header map in place to `AddValue` of the old map. |
| `Decorators.Authorization` | decorator-simplicity/main.go:58-60 | `Authorization(token)` is a `Header` decorator with the value `token` whose field name files under the key "Authorization". |
| `Decorators.Chain` | decorator-simplicity/main.go:34-40 | The layers of `Decorate(c, ds...)`, outermost first, are `ds` reversed followed by the layers of `c`. Since a client is determined by its layers (`LayersDetermineClient`), this fixes the result completely. |
| `Decorators.Decorate` | decorator-simplicity/main.go:34-40 | The loop that reassigns `decorated` once per decorator returns exactly the fold `Chain(c, ds)`. |
| `Decorators.Run` | decorator-simplicity/main.go:43-70 | One call through a decorated client only appends to the transport log and to the sleep trace: the old log and trace are prefixes of the new ones. |
| `Decorators.Retrying` | decorator-simplicity/main.go:46-51 | The retry loop from any iteration also only appends to the transport log and the sleep trace. |
| `Decorators.ScriptedClient.Do` | decorator-simplicity/main.go:19-21 | The base client answers its n-th call with `script(n)` and logs the header of the request it received. |
| `Decorators.Clock.Sleep` | decorator-simplicity/main.go:50 | `time.Sleep(d)` appends `d` to the sleep trace. |
| `Decorators.Do` | decorator-simplicity/main.go:43-70 | A call through any decorated client leaves the request header, the transport log and the sleep trace, and returns the reply, exactly as `Run` gives them. The header layer adds its value in place and delegates once. The fault-tolerance layer's loop keeps `Retrying` invariant and breaks on a nil error. |
| `DecoratorLaws.ChainUnit` | decorator-simplicity/main.go:34-40 | `Decorate(c)` is `c`, and `Decorate(c, d)` is `d(c)`. |
| `DecoratorLaws.ChainAppend` | decorator-simplicity/main.go:35-39 | `Decorate(c, ds1 ++ ds2)` equals `Decorate(Decorate(c, ds1), ds2)`. |
| `DecoratorLaws.LayersDetermineClient` | decorator-simplicity/main.go:34-40 | Two clients with the same layers are the same client, so `Chain`'s layer list fixes its result. |
| `DecoratorLaws.LastDecoratorOutermost` | decorator-simplicity/main.go:35-39 | The last-listed decorator is the outermost layer, around the decoration by the others. |
| `DecoratorLaws.SingleShotRun` | decorator-simplicity/main.go:65-68 | A client of header layers only calls the transport once, with the header its layers built. It returns the transport's reply unchanged and never sleeps. |
| `DecoratorLaws.HeaderDelegatesOnce` | decorator-simplicity/main.go:63-70 | A header layer adds its value, then makes one call to the inner client with the same request. Over a single-shot inner client that is one transport call, and its reply is returned unchanged. |
| `DecoratorLaws.AuthorizationHeader` | decorator-simplicity/main.go:58-60 | `Authorization(token)` appends the token under the literal field "Authorization", after any earlier values. |
| `DecoratorLaws.HeaderChainReaching` | decorator-simplicity/main.go:34-40 | Header decorators applied by `Decorate` add their values in reverse list order. |
| `DecoratorLaws.TwoHeadersReaching` | decorator-simplicity/main.go:34-40 | `Decorate(base, Header("X","1"), Header("X","2"))` has no retry layer, and the header it hands to the transport maps "X" to ["2", "1"]. |
| `DecoratorLaws.TwoHeadersOrder` | decorator-simplicity/main.go:34-40 | `Decorate(base, Header("X","1"), Header("X","2"))` sends "X" as ["2", "1"]. |
| `DecoratorLaws.Backoffs` | decorator-simplicity/main.go:50 | The schedule of `count` sleeps from iteration `from` on has `count` elements. |
| `DecoratorLaws.BackoffsAt` | decorator-simplicity/main.go:50 | The j-th sleep of the schedule from iteration `from` lasts `backoff * (from + j)`. |
| `DecoratorLaws.FaultToleranceNegative` | decorator-simplicity/main.go:46-52 | With `attempts < 0`, the inner client is never called, nothing is slept, and the result is `(nil, nil)`. |
| `DecoratorLaws.RetryingStep` | decorator-simplicity/main.go:46-51 | One iteration over a single-shot client makes one transport call with the header its layers built. It stops with that reply on a nil error; otherwise it sleeps `backoff * i` and goes on to iteration `i + 1`. |
| `DecoratorLaws.RetryingLoop` | decorator-simplicity/main.go:46-51 | Over a single-shot client the retry loop is the plain loop `Loop`, in which each iteration is one transport call. |
| `DecoratorLaws.FaultToleranceLoop` | decorator-simplicity/main.go:43-55 | `FaultTolerance(attempts, backoff)` around a single-shot client runs that loop from iteration 0 with the result `(nil, nil)`. |
| `DecoratorLaws.LoopCalls` | decorator-simplicity/main.go:46-51 | From iteration `i` the loop makes at most `attempts + 1 - i` calls, and at least one when `i <= attempts`. It only appends to the transport log, and with no call it returns the previous reply and changes nothing. |
| `DecoratorLaws.LoopOutcome` | decorator-simplicity/main.go:46-51 | Every call but the last failed, the last call's reply is returned, and fewer calls than allowed means that reply has a nil error. |
| `DecoratorLaws.LoopSleeps` | decorator-simplicity/main.go:50 | The loop sleeps `backoff * i`, `backoff * (i + 1)`, ..., one sleep per failed call. |
| `DecoratorLaws.LoopBound` | decorator-simplicity/main.go:46-51 | All of the above about the loop from iteration `i` in one statement. |
| `DecoratorLaws.LoopBoundFromStart` | decorator-simplicity/main.go:46-52 | The same from iteration 0 with the result `(nil, nil)`: at most `attempts + 1` calls, at least one when `attempts >= 0`, and `(nil, nil)` with nothing changed when there is none. |
| `DecoratorLaws.RetryingBound` | decorator-simplicity/main.go:46-51 | From iteration `i` on, the loop makes at most `attempts + 1 - i` calls, and at least one when `i <= attempts`. Every call but the last failed, and the last call's reply is returned. Fewer calls than allowed means that reply succeeded. Sleeps are `backoff * i, ...`, one per failed call. |
| `DecoratorLaws.FaultToleranceBound` | decorator-simplicity/main.go:43-55 | `FaultTolerance(attempts, backoff)` makes at most `attempts + 1` inner calls, and at least one when `attempts >= 0`. With no call it returns `(nil, nil)` and changes nothing. It stops at the first nil error, returning that reply, and otherwise returns the last reply. It sleeps `backoff * 0, backoff * 1, ...`, one per failed call. |
| `DecoratorLaws.LoopSucceeds` | decorator-simplicity/main.go:46-51 | From iteration `i`, with `k` failures then a success, the loop makes `k + 1` calls, sleeps `k` times starting at `backoff * i`, and returns the success. |
| `DecoratorLaws.RetryingSucceeds` | decorator-simplicity/main.go:46-51 | From iteration `i`, with `k` failures then a success, there are `k + 1` calls and `k` sleeps starting at `backoff * i`. |
| `DecoratorLaws.FaultToleranceSucceeds` | decorator-simplicity/main.go:46-52 | If the first `k <= attempts` calls fail and the next succeeds, there are exactly `k + 1` calls and sleeps `backoff*0 .. backoff*(k-1)`, and the success is returned. |
| `DecoratorLaws.LoopExhausts` | decorator-simplicity/main.go:46-51 | From iteration `i`, with every call failing, the loop makes `attempts + 1 - i` calls, returns the last reply, and sleeps once per call. |
| `DecoratorLaws.LoopExhaustsFromStart` | decorator-simplicity/main.go:46-52 | From iteration 0, with every call failing: `attempts + 1` calls, the last error returned, and sleeps `backoff*0 .. backoff*attempts`. |
| `DecoratorLaws.RetryingExhausts` | decorator-simplicity/main.go:46-51 | From iteration `i`, with every call failing, there are `attempts + 1 - i` calls, the last reply is returned, and there is one sleep per call. |
| `DecoratorLaws.FaultToleranceExhausts` | decorator-simplicity/main.go:46-52 | If every call fails, there are exactly `attempts + 1` calls and the last error is returned. There are `attempts + 1` sleeps `backoff*0 .. backoff*attempts`, the last one after the final failure. |
| `DecoratorLaws.RetryingReappends` | decorator-simplicity/main.go:45-51 | A header layer inside the retry loop re-appends its value on each failing iteration from `i`. |
| `DecoratorLaws.RetryReappendsHeader` | decorator-simplicity/main.go:45-47 | In `Decorate(base, Header(n, v), FaultTolerance(a, b))` with every call failing, the same request is reused. The j-th call carries `v` j + 1 times after the old values, and the request ends with `a + 1` copies. |
| `DecoratorLaws.ExtendsTransitive` | decorator-simplicity/main.go:66 | Header growth, log growth and sleep growth compose across calls. |
| `DecoratorLaws.RunExtends` | decorator-simplicity/main.go:43-70 | A call through any chain of decorators never removes a header value, a log entry or a sleep. It only appends. |
| `DecoratorLaws.RetryingExtends` | decorator-simplicity/main.go:46-51 | The same for the retry loop from any iteration. |

## Left out

- `ctx/main.go` is not part of this model. Its goroutine fan-out, `sync.WaitGroup` join, shared context cancellation, `httptest` servers and body reading are concurrency and network I/O.
- The `main` entry point (`decorator-simplicity/main.go:11-16`) is not modelled.
- `*http.Request` and `*http.Response` are reduced to a header map and an opaque response value. Method, URL, body and status are not modelled.
- The transport's answer depends only on the call's position (`script(n)`), not on the request it receives. The headers it receives are logged.
- `time.Sleep` is not performed. Its duration is recorded in a trace.
- `backoff * time.Duration(i)` is unbounded integer arithmetic. The model does not capture `int64` overflow of the product.
- The loop counter `i` is unbounded. The model does not capture the overflow of `i++` that would keep the Go loop running forever when `attempts` is the largest `int`.
- `Header.Add` panics on a request whose header map is nil. The model's request always holds a map.
- Key canonicalisation follows Go's `textproto.CanonicalMIMEHeaderKey` on characters. A name with any non-token character is left as it is. The rule's source, `net/textproto`, is not part of this model.
- The laws about the retry layer's call count and schedule assume that the inner client has no retry layer of its own (`SingleShot`), so that one inner call is one transport call. `Do`, `Run` and `RunExtends` cover any nesting.
- Reuse of one decorated client by concurrent callers is not modelled.
- Decorators are the two this file defines. `Decorator` (`decorator-simplicity/main.go:31`) and `ClientFunc` (`decorator-simplicity/main.go:24-28`) are open Go types, so a caller may write a decorator of its own; such decorators are not modelled. The `Wrapped` constructor, and `Do`'s match on the layer, stand for the `ClientFunc` adapter through which each decorator's closure is called.
