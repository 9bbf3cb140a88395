/**
 The client-decoration pipeline. A client sends a request and answers with a
 (response, error) pair; a decorator wraps a client in a new client with the
 same interface. The real HTTP transport at the bottom of every chain is a
 scripted client whose n-th call answers `script(n)`, and the sleeps of the
 retry loop are recorded on a clock instead of being waited out.
 */
module Decorators {
  import opened HttpHeader

  datatype Option<T> = None | Some(value: T)

  /** An opaque response value. */
  datatype Response = Response(id: nat)

  datatype Error = Error(reason: string)

  /** The `(*http.Response, error)` pair a client returns; either half may be nil. */
  datatype Reply = Reply(res: Option<Response>, err: Option<Error>) {
    predicate Succeeded() { err.None? }
  }

  /** The zero values `(nil, nil)`. */
  const NoReply := Reply(None, None)

  /** `Header(name, value)` adds a header value to each request; `FaultTolerance(attempts, backoff)` retries. */
  datatype Decorator =
    | Header(name: string, value: string)
    | FaultTolerance(attempts: int, backoff: int)

  /**
   `Authorization(token)` is the `Header` decorator for the field
   "Authorization", a name that is already canonical.
   */
  function Authorization(token: string): (d: Decorator)
    ensures d.Header? && d.value == token
    ensures CanonicalKey(d.name) == "Authorization"
  {
    assert IsToken("Authorization") && IsCanonical("Authorization");
    CanonicalKeyFixed("Authorization");
    Header("Authorization", token)
  }

  /** A client: the base transport, or a decorator's layer around an inner client. */
  datatype Client = Base | Wrapped(layer: Decorator, inner: Client)

  /** The layers of a client, outermost first. */
  function Layers(c: Client): seq<Decorator> {
    match c
    case Base => []
    case Wrapped(d, inner) => [d] + Layers(inner)
  }

  function Reversed<T>(s: seq<T>): (r: seq<T>)
    ensures |r| == |s|
    ensures forall i :: 0 <= i < |s| ==> r[i] == s[|s| - 1 - i]
  {
    if s == [] then [] else [s[|s| - 1]] + Reversed(s[..|s| - 1])
  }

  /**
   `Decorate(c, ds...)` as a fold: each decorator wraps the client built from
   the ones before it, so the last-listed decorator is the outermost layer.
   */
  function Chain(c: Client, ds: seq<Decorator>): (r: Client)
    ensures Layers(r) == Reversed(ds) + Layers(c)
  {
    if ds == [] then c else Wrapped(ds[|ds| - 1], Chain(c, ds[..|ds| - 1]))
  }

  /** What a call can change: the request's header, the headers the transport received, the sleeps performed. */
  datatype World = World(header: HeaderMap, received: seq<HeaderMap>, slept: seq<int>)

  /**
   One call `c.Do(r)` on the request header `w.header`: the reply and the world
   afterwards. The transport's n-th call (n counted over the whole `received`
   log) answers `script(n)`.
   */
  function Run(c: Client, script: nat -> Reply, w: World): (r: (Reply, World))
    ensures w.received <= r.1.received && w.slept <= r.1.slept
    decreases c, 0, 0
  {
    match c
    case Base =>
      (script(|w.received|), w.(received := w.received + [w.header]))
    case Wrapped(Header(name, value), inner) =>
      Run(inner, script, w.(header := AddValue(w.header, name, value)))
    case Wrapped(FaultTolerance(attempts, backoff), inner) =>
      Retrying(inner, attempts, backoff, script, 0, NoReply, w)
  }

  /**
   The retry loop of `FaultTolerance` from iteration `i` on, `last` being the
   pair returned by the previous attempt: call the inner client, stop on a nil
   error, otherwise sleep `backoff * i` and go on while `i <= attempts`.
   */
  function Retrying(inner: Client, attempts: int, backoff: int, script: nat -> Reply,
                    i: nat, last: Reply, w: World): (r: (Reply, World))
    ensures w.received <= r.1.received && w.slept <= r.1.slept
    decreases inner, 1, attempts + 1 - i
  {
    if i > attempts then (last, w)
    else
      var (reply, w1) := Run(inner, script, w);
      if reply.Succeeded() then (reply, w1)
      else Retrying(inner, attempts, backoff, script, i + 1, reply, w1.(slept := w1.slept + [backoff * i]))
  }

  /** The base transport: its n-th call answers `script(n)`; it logs the header of every request it receives. */
  class ScriptedClient {
    const script: nat -> Reply
    var received: seq<HeaderMap>

    constructor (script: nat -> Reply)
      ensures this.script == script && received == []
    {
      this.script := script;
      received := [];
    }

    method Do(r: Request) returns (reply: Reply)
      modifies this
      ensures reply == script(|old(received)|)
      ensures received == old(received) + [r.header]
    {
      reply := script(|received|);
      received := received + [r.header];
    }
  }

  /** `time.Sleep`, recorded rather than waited. */
  class Clock {
    var slept: seq<int>

    constructor ()
      ensures slept == []
    {
      slept := [];
    }

    method Sleep(d: int)
      modifies this
      ensures slept == old(slept) + [d]
    {
      slept := slept + [d];
    }
  }

  /**
   `Decorate(c, ds...)`: reassigns the decorated client once per decorator, in
   list order.
   */
  method Decorate(c: Client, ds: seq<Decorator>) returns (decorated: Client)
    ensures decorated == Chain(c, ds)
  {
    decorated := c;
    for i := 0 to |ds|
      invariant decorated == Chain(c, ds[..i])
    {
      assert ds[..i + 1][..i] == ds[..i];
      decorated := Wrapped(ds[i], decorated);
    }
    assert ds[..|ds|] == ds;
  }

  /**
   `c.Do(r)` for a decorated client: the `Header` layer adds its value to the
   request in place and delegates once; the `FaultTolerance` layer runs the
   bounded retry loop; the base hands the request to the transport.
   */
  method Do(c: Client, r: Request, base: ScriptedClient, clock: Clock) returns (reply: Reply)
    modifies r, base, clock
    decreases c
    ensures (reply, World(r.header, base.received, clock.slept))
         == Run(c, base.script, old(World(r.header, base.received, clock.slept)))
  {
    match c
    case Base =>
      reply := base.Do(r);
    case Wrapped(Header(name, value), inner) =>
      r.AddHeader(name, value);
      reply := Do(inner, r, base, clock);
    case Wrapped(FaultTolerance(attempts, backoff), inner) =>
      ghost var goal := Run(c, base.script, World(r.header, base.received, clock.slept));
      reply := NoReply;
      var i := 0;
      while i <= attempts
        invariant Retrying(inner, attempts, backoff, base.script, i, reply, World(r.header, base.received, clock.slept)) == goal
      {
        reply := Do(inner, r, base, clock);
        if reply.Succeeded() {
          break;
        }
        clock.Sleep(backoff * i);
        i := i + 1;
      }
  }
}
