/**
 Laws of the decoration pipeline: the order in which `Decorate` stacks its
 decorators, what a header layer does to the request, and the attempt count,
 backoff schedule and result of the retry layer.
 */
module DecoratorLaws {
  import opened HttpHeader
  import opened Decorators

  // ---------------------------------------------------------------------------
  // Decorate

  /** No decorators leave the client as it is; one decorator wraps it once. */
  lemma ChainUnit(c: Client, d: Decorator)
    ensures Chain(c, []) == c
    ensures Chain(c, [d]) == Wrapped(d, c)
  {
    assert [d][..0] == [];
  }

  /** Decorating with `ds1 + ds2` is decorating with `ds1`, then decorating the result with `ds2`. */
  lemma {:induction false} ChainAppend(c: Client, ds1: seq<Decorator>, ds2: seq<Decorator>)
    ensures Chain(c, ds1 + ds2) == Chain(Chain(c, ds1), ds2)
    decreases |ds2|
  {
    if ds2 == [] {
      assert ds1 + ds2 == ds1;
    } else {
      var ds := ds1 + ds2;
      assert ds[|ds| - 1] == ds2[|ds2| - 1];
      assert ds[..|ds| - 1] == ds1 + ds2[..|ds2| - 1];
      ChainAppend(c, ds1, ds2[..|ds2| - 1]);
    }
  }

  /** A client is determined by its layers, so `Chain`'s layer list says everything about its result. */
  lemma {:induction false} LayersDetermineClient(a: Client, b: Client)
    requires Layers(a) == Layers(b)
    ensures a == b
  {
    match a
    case Base =>
    case Wrapped(d, inner) =>
      assert Layers(a)[0] == d;
      assert b.Wrapped? && b.layer == d;
      assert Layers(a)[1..] == Layers(inner);
      assert Layers(b)[1..] == Layers(b.inner);
      LayersDetermineClient(inner, b.inner);
  }

  /** The last-listed decorator is the outermost layer, the one a caller reaches first. */
  lemma LastDecoratorOutermost(c: Client, ds: seq<Decorator>)
    requires ds != []
    ensures Chain(c, ds).Wrapped? && Chain(c, ds).layer == ds[|ds| - 1]
    ensures Chain(c, ds).inner == Chain(c, ds[..|ds| - 1])
  {
  }

  // ---------------------------------------------------------------------------
  // Header

  /** A client with no retry layer: each call reaches the transport exactly once. */
  predicate SingleShot(c: Client) {
    match c
    case Base => true
    case Wrapped(d, inner) => d.Header? && SingleShot(inner)
  }

  /** The header a single-shot client hands to the transport, starting from `h`. */
  function Reaching(c: Client, h: HeaderMap): HeaderMap
    requires SingleShot(c)
  {
    match c
    case Base => h
    case Wrapped(d, inner) => Reaching(inner, AddValue(h, d.name, d.value))
  }

  /**
   A single-shot client calls the transport once, with the header its layers
   built, and returns the transport's reply unchanged; it sleeps never.
   */
  lemma {:induction false} SingleShotRun(c: Client, script: nat -> Reply, w: World)
    requires SingleShot(c)
    ensures Run(c, script, w) == (script(|w.received|), World(Reaching(c, w.header), w.received + [Reaching(c, w.header)], w.slept))
  {
    match c
    case Base =>
    case Wrapped(d, inner) =>
      SingleShotRun(inner, script, w.(header := AddValue(w.header, d.name, d.value)));
  }

  /**
   A `Header` layer adds its value to the request and delegates to its inner
   client once; over a single-shot inner client that is one transport call whose
   reply comes back unchanged.
   */
  lemma HeaderDelegatesOnce(name: string, value: string, inner: Client, script: nat -> Reply, w: World)
    ensures Run(Wrapped(Header(name, value), inner), script, w)
         == Run(inner, script, w.(header := AddValue(w.header, name, value)))
    ensures SingleShot(inner) ==>
      var r := Run(Wrapped(Header(name, value), inner), script, w);
      var reply := r.0;
      var w' := r.1;
      && reply == script(|w.received|)
      && w'.received == w.received + [Reaching(inner, AddValue(w.header, name, value))]
      && w'.slept == w.slept
  {
    if SingleShot(inner) {
      SingleShotRun(Wrapped(Header(name, value), inner), script, w);
    }
  }

  /** `Authorization(token)` files the token under the field "Authorization", after any earlier values. */
  lemma AuthorizationHeader(token: string, inner: Client, script: nat -> Reply, w: World)
    ensures Run(Wrapped(Authorization(token), inner), script, w)
         == Run(inner, script, w.(header := w.header["Authorization" := Values(w.header, "Authorization") + [token]]))
  {
    assert Authorization(token) == Header("Authorization", token);
    assert CanonicalKey("Authorization") == "Authorization";
    var h := w.header["Authorization" := Values(w.header, "Authorization") + [token]];
    assert AddValue(w.header, "Authorization", token) == h;
    assert Run(Wrapped(Authorization(token), inner), script, w) == Run(inner, script, w.(header := h));
  }

  /** Whether every decorator in `ds` is a `Header` decorator. */
  predicate HeadersOnly(ds: seq<Decorator>) {
    forall i :: 0 <= i < |ds| ==> ds[i].Header?
  }

  /** `Header.Add` for each header decorator of `ds`, in list order. */
  function ApplyHeaders(h: HeaderMap, ds: seq<Decorator>): HeaderMap
    requires HeadersOnly(ds)
    decreases |ds|
  {
    if ds == [] then h else ApplyHeaders(AddValue(h, ds[0].name, ds[0].value), ds[1..])
  }

  /**
   Decorating the transport with header decorators only: the values are added
   in reverse list order, the last-listed decorator's first.
   */
  lemma {:induction false} HeaderChainReaching(ds: seq<Decorator>, h: HeaderMap)
    requires HeadersOnly(ds)
    ensures SingleShot(Chain(Base, ds))
    ensures Reaching(Chain(Base, ds), h) == ApplyHeaders(h, Reversed(ds))
    decreases |ds|
  {
    if ds != [] {
      var d := ds[|ds| - 1];
      var rest := ds[..|ds| - 1];
      HeaderChainReaching(rest, AddValue(h, d.name, d.value));
      assert Reversed(ds)[1..] == Reversed(rest);
    }
  }

  /** The header `Decorate(base, Header("X", "1"), Header("X", "2"))` builds: "X" with "2" then "1". */
  lemma TwoHeadersReaching()
    ensures SingleShot(Chain(Base, [Header("X", "1"), Header("X", "2")]))
    ensures Reaching(Chain(Base, [Header("X", "1"), Header("X", "2")]), map[]) == map["X" := ["2", "1"]]
  {
    var ds := [Header("X", "1"), Header("X", "2")];
    assert IsToken("X") && IsCanonical("X");
    CanonicalKeyFixed("X");
    HeaderChainReaching(ds, map[]);
    var rev := Reversed(ds);
    assert rev == [Header("X", "2"), Header("X", "1")];
    var h1 := AddValue(map[], "X", "2");
    assert Values(h1, "X") == ["2"] && h1.Keys == {"X"};
    var h2 := AddValue(h1, "X", "1");
    assert Values(h2, "X") == ["2", "1"] && h2.Keys == {"X"};
    assert h2 == map["X" := ["2", "1"]];
    assert ApplyHeaders(map[], rev) == ApplyHeaders(h1, rev[1..]) == ApplyHeaders(h2, rev[2..]);
  }

  /**
   `Decorate(base, Header("X", "1"), Header("X", "2"))` sends "X" with the
   values "2" then "1": the later decorator runs first.
   */
  lemma TwoHeadersOrder(script: nat -> Reply)
    ensures Run(Chain(Base, [Header("X", "1"), Header("X", "2")]), script, World(map[], [], [])).1.received
         == [map["X" := ["2", "1"]]]
  {
    TwoHeadersReaching();
    SingleShotRun(Chain(Base, [Header("X", "1"), Header("X", "2")]), script, World(map[], [], []));
  }

  // ---------------------------------------------------------------------------
  // FaultTolerance

  /** The sleep durations `backoff * from`, ..., `backoff * (from + count - 1)`. */
  function Backoffs(backoff: int, from: int, count: nat): (r: seq<int>)
    ensures |r| == count
    decreases count
  {
    if count == 0 then [] else [backoff * from] + Backoffs(backoff, from + 1, count - 1)
  }

  /** The j-th sleep of the schedule from iteration `from` lasts `backoff * (from + j)`. */
  lemma {:induction false} BackoffsAt(backoff: int, from: int, count: nat, j: nat)
    requires j < count
    ensures Backoffs(backoff, from, count)[j] == backoff * (from + j)
    decreases count
  {
    if j > 0 {
      BackoffsAt(backoff, from + 1, count - 1, j - 1);
    }
  }

  /** Whether the transport's answers `script(from)`, ..., `script(from + count - 1)` all carry an error. */
  predicate FailsFrom(script: nat -> Reply, from: nat, count: nat) {
    forall m: nat :: from <= m < from + count ==> !script(m).Succeeded()
  }

  /** With a negative attempt count the loop body never runs: `(nil, nil)` and nothing changes. */
  lemma FaultToleranceNegative(attempts: int, backoff: int, inner: Client, script: nat -> Reply, w: World)
    requires attempts < 0
    ensures Run(Wrapped(FaultTolerance(attempts, backoff), inner), script, w) == (NoReply, w)
  {
  }

  /**
   One iteration of the retry loop over a single-shot client: one transport
   call; stop on success, otherwise sleep `backoff * i` and go to iteration
   `i + 1`.
   */
  lemma RetryingStep(inner: Client, attempts: int, backoff: int, script: nat -> Reply,
                     i: nat, last: Reply, w: World)
    requires SingleShot(inner)
    requires i <= attempts
    ensures
      var n := |w.received|;
      var h := Reaching(inner, w.header);
      Retrying(inner, attempts, backoff, script, i, last, w)
        == if script(n).Succeeded() then (script(n), World(h, w.received + [h], w.slept))
           else Retrying(inner, attempts, backoff, script, i + 1, script(n), World(h, w.received + [h], w.slept + [backoff * i]))
  {
    SingleShotRun(inner, script, w);
  }

  /** The header map a single-shot client hands to the transport, as a function of the request header. */
  function ReachOf(c: Client): HeaderMap -> HeaderMap
    requires SingleShot(c)
  {
    h => Reaching(c, h)
  }

  /**
   The retry loop over a single-shot client whose one call hands `reach` of the
   request header to the transport (`RetryingLoop` shows it is `Retrying`).
   */
  function Loop(reach: HeaderMap -> HeaderMap, attempts: int, backoff: int, script: nat -> Reply,
                i: nat, last: Reply, w: World): (Reply, World)
    decreases if i <= attempts then attempts + 1 - i else 0
  {
    if i > attempts then (last, w)
    else
      var n := |w.received|;
      var h := reach(w.header);
      if script(n).Succeeded() then (script(n), World(h, w.received + [h], w.slept))
      else Loop(reach, attempts, backoff, script, i + 1, script(n), World(h, w.received + [h], w.slept + [backoff * i]))
  }

  /** Over a single-shot client the retry loop is `Loop`: each iteration is one transport call. */
  lemma {:induction false} RetryingLoop(inner: Client, attempts: int, backoff: int, script: nat -> Reply,
                                        i: nat, last: Reply, w: World)
    requires SingleShot(inner)
    ensures Retrying(inner, attempts, backoff, script, i, last, w) == Loop(ReachOf(inner), attempts, backoff, script, i, last, w)
    decreases if i <= attempts then attempts + 1 - i else 0
  {
    if i <= attempts {
      RetryingStep(inner, attempts, backoff, script, i, last, w);
      var n := |w.received|;
      var h := Reaching(inner, w.header);
      assert ReachOf(inner)(w.header) == h;
      if !script(n).Succeeded() {
        RetryingLoop(inner, attempts, backoff, script, i + 1, script(n), World(h, w.received + [h], w.slept + [backoff * i]));
      }
    }
  }

  /** A `FaultTolerance` layer around a single-shot client runs `Loop` from iteration 0 with the reply `(nil, nil)`. */
  lemma FaultToleranceLoop(attempts: int, backoff: int, inner: Client, script: nat -> Reply, w: World)
    requires SingleShot(inner)
    ensures Run(Wrapped(FaultTolerance(attempts, backoff), inner), script, w)
         == Loop(ReachOf(inner), attempts, backoff, script, 0, NoReply, w)
  {
    RetryingLoop(inner, attempts, backoff, script, 0, NoReply, w);
  }

  /**
   From iteration `i` the loop makes at most `attempts + 1 - i` calls and at
   least one while `i <= attempts`; it only appends to the transport log, and
   with no call nothing changes.
   */
  lemma {:induction false} LoopCalls(reach: HeaderMap -> HeaderMap, attempts: int, backoff: int, script: nat -> Reply,
                                     i: nat, last: Reply, w: World)
    ensures
      var r := Loop(reach, attempts, backoff, script, i, last, w);
      var calls := |r.1.received| - |w.received|;
      && 0 <= calls <= (if i <= attempts then attempts + 1 - i else 0)
      && (i <= attempts ==> calls > 0)
      && r.1.received[..|w.received|] == w.received
      && (calls == 0 ==> r == (last, w))
    decreases if i <= attempts then attempts + 1 - i else 0
  {
    if i <= attempts {
      var n := |w.received|;
      var h := reach(w.header);
      if !script(n).Succeeded() {
        var w2 := World(h, w.received + [h], w.slept + [backoff * i]);
        LoopCalls(reach, attempts, backoff, script, i + 1, script(n), w2);
        var r2 := Loop(reach, attempts, backoff, script, i + 1, script(n), w2);
        assert r2.1.received[..n] == r2.1.received[..n + 1][..n];
      }
    }
  }

  /**
   Every call but the last failed, the last call's reply is returned, and fewer
   calls than allowed means that reply succeeded.
   */
  lemma {:induction false} LoopOutcome(reach: HeaderMap -> HeaderMap, attempts: int, backoff: int, script: nat -> Reply,
                                       i: nat, last: Reply, w: World)
    ensures
      var r := Loop(reach, attempts, backoff, script, i, last, w);
      var n := |w.received|;
      var calls := |r.1.received| - n;
      && (calls > 0 ==> FailsFrom(script, n, calls - 1))
      && (calls > 0 ==> r.0 == script(n + calls - 1))
      && (calls > 0 && calls < attempts + 1 - i ==> r.0.Succeeded())
    decreases if i <= attempts then attempts + 1 - i else 0
  {
    if i <= attempts {
      var n := |w.received|;
      var h := reach(w.header);
      if !script(n).Succeeded() {
        var w2 := World(h, w.received + [h], w.slept + [backoff * i]);
        LoopOutcome(reach, attempts, backoff, script, i + 1, script(n), w2);
        LoopCalls(reach, attempts, backoff, script, i + 1, script(n), w2);
      }
    }
  }

  /** Sleeps the loop performs in `calls` calls: one per failed call, so one fewer when the last call succeeded. */
  function SleepCount(calls: int, succeeded: bool): nat {
    if calls <= 0 then 0 else if succeeded then calls - 1 else calls
  }

  lemma AppendBackoff(slept: seq<int>, backoff: int, i: int, k: nat)
    ensures slept + [backoff * i] + Backoffs(backoff, i + 1, k) == slept + Backoffs(backoff, i, k + 1)
  {
    assert Backoffs(backoff, i, k + 1) == [backoff * i] + Backoffs(backoff, i + 1, k);
  }

  /** The loop sleeps `backoff * i`, `backoff * (i + 1)`, ..., one sleep per failed call. */
  lemma {:induction false} LoopSleeps(reach: HeaderMap -> HeaderMap, attempts: int, backoff: int, script: nat -> Reply,
                                      i: nat, last: Reply, w: World)
    ensures
      var r := Loop(reach, attempts, backoff, script, i, last, w);
      r.1.slept == w.slept + Backoffs(backoff, i, SleepCount(|r.1.received| - |w.received|, r.0.Succeeded()))
    decreases if i <= attempts then attempts + 1 - i else 0
  {
    if i <= attempts {
      var n := |w.received|;
      var h := reach(w.header);
      if !script(n).Succeeded() {
        var w2 := World(h, w.received + [h], w.slept + [backoff * i]);
        var r2 := Loop(reach, attempts, backoff, script, i + 1, script(n), w2);
        LoopSleeps(reach, attempts, backoff, script, i + 1, script(n), w2);
        LoopCalls(reach, attempts, backoff, script, i + 1, script(n), w2);
        var m := |r2.1.received| - |w2.received|;
        assert SleepCount(m + 1, r2.0.Succeeded()) == SleepCount(m, r2.0.Succeeded()) + 1;
        AppendBackoff(w.slept, backoff, i, SleepCount(m, r2.0.Succeeded()));
      }
    }
  }

  /**
   The retry loop from iteration `i`: at most `attempts + 1 - i` calls and at
   least one while `i <= attempts`; every call but the last failed, the last
   call's reply is returned, fewer calls than allowed means that reply
   succeeded, and one sleep per failed call.
   */
  lemma LoopBound(reach: HeaderMap -> HeaderMap, attempts: int, backoff: int, script: nat -> Reply,
                  i: nat, last: Reply, w: World)
    ensures
      var r := Loop(reach, attempts, backoff, script, i, last, w);
      var n := |w.received|;
      var calls := |r.1.received| - n;
      && 0 <= calls <= (if i <= attempts then attempts + 1 - i else 0)
      && (i <= attempts ==> calls > 0)
      && r.1.received[..n] == w.received
      && (calls > 0 ==> FailsFrom(script, n, calls - 1))
      && (calls == 0 ==> r.0 == last && r.1 == w)
      && (calls > 0 ==> r.0 == script(n + calls - 1))
      && (calls > 0 && calls < attempts + 1 - i ==> r.0.Succeeded())
      && r.1.slept == w.slept + Backoffs(backoff, i, SleepCount(calls, r.0.Succeeded()))
  {
    var r := Loop(reach, attempts, backoff, script, i, last, w);
    LoopCalls(reach, attempts, backoff, script, i, last, w);
    LoopOutcome(reach, attempts, backoff, script, i, last, w);
    LoopSleeps(reach, attempts, backoff, script, i, last, w);
  }

  /** `LoopBound` from iteration 0 with the reply `(nil, nil)`. */
  lemma LoopBoundFromStart(reach: HeaderMap -> HeaderMap, attempts: int, backoff: int, script: nat -> Reply, w: World)
    ensures
      var r := Loop(reach, attempts, backoff, script, 0, NoReply, w);
      var reply := r.0;
      var w' := r.1;
      var n := |w.received|;
      var calls := |w'.received| - n;
      && 0 <= calls <= (if attempts < 0 then 0 else attempts + 1)
      && (attempts >= 0 ==> calls > 0)
      && (calls == 0 ==> reply == NoReply && w' == w)
      && (calls > 0 ==> FailsFrom(script, n, calls - 1))
      && (calls > 0 ==> reply == script(n + calls - 1))
      && (calls > 0 && calls <= attempts ==> reply.Succeeded())
      && w'.slept == w.slept + Backoffs(backoff, 0, SleepCount(calls, reply.Succeeded()))
  {
    LoopBound(reach, attempts, backoff, script, 0, NoReply, w);
  }

  /** `LoopBound` for the retry loop over a single-shot client. */
  lemma RetryingBound(inner: Client, attempts: int, backoff: int, script: nat -> Reply,
                      i: nat, last: Reply, w: World)
    requires SingleShot(inner)
    ensures
      var r := Retrying(inner, attempts, backoff, script, i, last, w);
      var n := |w.received|;
      var calls := |r.1.received| - n;
      && 0 <= calls <= (if i <= attempts then attempts + 1 - i else 0)
      && (i <= attempts ==> calls > 0)
      && r.1.received[..n] == w.received
      && (calls > 0 ==> FailsFrom(script, n, calls - 1))
      && (calls == 0 ==> r.0 == last && r.1 == w)
      && (calls > 0 ==> r.0 == script(n + calls - 1))
      && (calls > 0 && calls < attempts + 1 - i ==> r.0.Succeeded())
      && r.1.slept == w.slept + Backoffs(backoff, i, SleepCount(calls, r.0.Succeeded()))
  {
    RetryingLoop(inner, attempts, backoff, script, i, last, w);
    LoopBound(ReachOf(inner), attempts, backoff, script, i, last, w);
  }

  /**
   `FaultTolerance` over a single-shot client calls it at most `attempts + 1`
   times, stops at the first reply with a nil error and returns it, returns the
   last reply otherwise, and sleeps `backoff * i` after the i-th failed call.
   */
  lemma FaultToleranceBound(attempts: int, backoff: int, inner: Client, script: nat -> Reply, w: World)
    requires SingleShot(inner)
    ensures
      var r := Run(Wrapped(FaultTolerance(attempts, backoff), inner), script, w);
      var reply := r.0;
      var w' := r.1;
      var n := |w.received|;
      var calls := |w'.received| - n;
      && 0 <= calls <= (if attempts < 0 then 0 else attempts + 1)
      && (attempts >= 0 ==> calls > 0)
      && (calls == 0 ==> reply == NoReply && w' == w)
      && (calls > 0 ==> FailsFrom(script, n, calls - 1))
      && (calls > 0 ==> reply == script(n + calls - 1))
      && (calls > 0 && calls <= attempts ==> reply.Succeeded())
      && w'.slept == w.slept + Backoffs(backoff, 0, SleepCount(calls, reply.Succeeded()))
  {
    FaultToleranceLoop(attempts, backoff, inner, script, w);
    LoopBoundFromStart(ReachOf(inner), attempts, backoff, script, w);
  }

  lemma {:induction false} LoopSucceeds(reach: HeaderMap -> HeaderMap, attempts: int, backoff: int, script: nat -> Reply,
                                        i: nat, last: Reply, w: World, k: nat)
    requires i + k <= attempts
    requires FailsFrom(script, |w.received|, k) && script(|w.received| + k).Succeeded()
    ensures
      var r := Loop(reach, attempts, backoff, script, i, last, w);
      && r.0 == script(|w.received| + k)
      && |r.1.received| == |w.received| + k + 1
      && r.1.slept == w.slept + Backoffs(backoff, i, k)
    decreases k
  {
    if k > 0 {
      var n := |w.received|;
      var h := reach(w.header);
      assert !script(n).Succeeded();
      var w2 := World(h, w.received + [h], w.slept + [backoff * i]);
      LoopSucceeds(reach, attempts, backoff, script, i + 1, script(n), w2, k - 1);
      AppendBackoff(w.slept, backoff, i, k - 1);
    }
  }

  /** From iteration `i`, `k` failures then a success: `k + 1` calls, `k` sleeps from `backoff * i`, and the success. */
  lemma RetryingSucceeds(inner: Client, attempts: int, backoff: int, script: nat -> Reply,
                         i: nat, last: Reply, w: World, k: nat)
    requires SingleShot(inner)
    requires i + k <= attempts
    requires FailsFrom(script, |w.received|, k) && script(|w.received| + k).Succeeded()
    ensures
      var r := Retrying(inner, attempts, backoff, script, i, last, w);
      && r.0 == script(|w.received| + k)
      && |r.1.received| == |w.received| + k + 1
      && r.1.slept == w.slept + Backoffs(backoff, i, k)
  {
    RetryingLoop(inner, attempts, backoff, script, i, last, w);
    LoopSucceeds(ReachOf(inner), attempts, backoff, script, i, last, w, k);
  }

  /**
   If the first `k <= attempts` calls fail and the next succeeds: `k + 1`
   calls, the sleeps `backoff * 0`, ..., `backoff * (k - 1)`, and the
   successful reply.
   */
  lemma FaultToleranceSucceeds(attempts: int, backoff: int, inner: Client, script: nat -> Reply, w: World, k: nat)
    requires SingleShot(inner)
    requires k <= attempts
    requires FailsFrom(script, |w.received|, k) && script(|w.received| + k).Succeeded()
    ensures
      var r := Run(Wrapped(FaultTolerance(attempts, backoff), inner), script, w);
      var reply := r.0;
      var w' := r.1;
      && reply == script(|w.received| + k)
      && |w'.received| == |w.received| + k + 1
      && w'.slept == w.slept + Backoffs(backoff, 0, k)
  {
    FaultToleranceLoop(attempts, backoff, inner, script, w);
    LoopSucceeds(ReachOf(inner), attempts, backoff, script, 0, NoReply, w, k);
  }

  lemma {:induction false} LoopExhausts(reach: HeaderMap -> HeaderMap, attempts: int, backoff: int, script: nat -> Reply,
                                        i: nat, last: Reply, w: World)
    requires i <= attempts
    requires FailsFrom(script, |w.received|, attempts + 1 - i)
    ensures
      var r := Loop(reach, attempts, backoff, script, i, last, w);
      && r.0 == script(|w.received| + attempts - i)
      && |r.1.received| == |w.received| + attempts + 1 - i
      && r.1.slept == w.slept + Backoffs(backoff, i, attempts + 1 - i)
    decreases attempts - i
  {
    var n := |w.received|;
    var h := reach(w.header);
    assert !script(n).Succeeded();
    var w2 := World(h, w.received + [h], w.slept + [backoff * i]);
    if i < attempts {
      LoopExhausts(reach, attempts, backoff, script, i + 1, script(n), w2);
      AppendBackoff(w.slept, backoff, i, attempts - i);
    } else {
      assert Backoffs(backoff, i, 1) == [backoff * i];
    }
  }

  lemma LoopExhaustsFromStart(reach: HeaderMap -> HeaderMap, attempts: nat, backoff: int, script: nat -> Reply, w: World)
    requires FailsFrom(script, |w.received|, attempts + 1)
    ensures
      var r := Loop(reach, attempts, backoff, script, 0, NoReply, w);
      && r.0 == script(|w.received| + attempts)
      && !r.0.Succeeded()
      && |r.1.received| == |w.received| + attempts + 1
      && r.1.slept == w.slept + Backoffs(backoff, 0, attempts + 1)
  {
    LoopExhausts(reach, attempts, backoff, script, 0, NoReply, w);
  }

  /** From iteration `i`, every call failing: `attempts + 1 - i` calls, the last reply, and one sleep per call. */
  lemma RetryingExhausts(inner: Client, attempts: int, backoff: int, script: nat -> Reply,
                         i: nat, last: Reply, w: World)
    requires SingleShot(inner)
    requires i <= attempts
    requires FailsFrom(script, |w.received|, attempts + 1 - i)
    ensures
      var r := Retrying(inner, attempts, backoff, script, i, last, w);
      && r.0 == script(|w.received| + attempts - i)
      && |r.1.received| == |w.received| + attempts + 1 - i
      && r.1.slept == w.slept + Backoffs(backoff, i, attempts + 1 - i)
  {
    RetryingLoop(inner, attempts, backoff, script, i, last, w);
    LoopExhausts(ReachOf(inner), attempts, backoff, script, i, last, w);
  }

  /**
   If every call fails: `attempts + 1` calls, the last error returned, and
   `attempts + 1` sleeps `backoff * 0`, ..., `backoff * attempts`, the last
   one after the final failure.
   */
  lemma FaultToleranceExhausts(attempts: nat, backoff: int, inner: Client, script: nat -> Reply, w: World)
    requires SingleShot(inner)
    requires FailsFrom(script, |w.received|, attempts + 1)
    ensures
      var r := Run(Wrapped(FaultTolerance(attempts, backoff), inner), script, w);
      var reply := r.0;
      var w' := r.1;
      && reply == script(|w.received| + attempts)
      && !reply.Succeeded()
      && |w'.received| == |w.received| + attempts + 1
      && w'.slept == w.slept + Backoffs(backoff, 0, attempts + 1)
  {
    FaultToleranceLoop(attempts, backoff, inner, script, w);
    LoopExhaustsFromStart(ReachOf(inner), attempts, backoff, script, w);
  }

  /** `n` copies of `v`. */
  function Repeat(v: string, n: nat): (r: seq<string>)
    ensures |r| == n && forall j :: 0 <= j < n ==> r[j] == v
  {
    if n == 0 then [] else [v] + Repeat(v, n - 1)
  }

  /** A header layer inside the retry loop re-appends its value on each failing iteration from `i`. */
  lemma {:induction false} RetryingReappends(name: string, value: string, attempts: int, backoff: int,
                                             script: nat -> Reply, i: nat, last: Reply, w: World)
    requires i <= attempts
    requires FailsFrom(script, |w.received|, attempts + 1 - i)
    ensures
      var w' := Retrying(Wrapped(Header(name, value), Base), attempts, backoff, script, i, last, w).1;
      var key := CanonicalKey(name);
      var n := |w.received|;
      && |w'.received| == n + attempts + 1 - i
      && w'.received[..n] == w.received
      && (forall j :: n <= j <= n + attempts - i ==>
            Values(w'.received[j], key) == Values(w.header, key) + Repeat(value, j - n + 1))
      && Values(w'.header, key) == Values(w.header, key) + Repeat(value, attempts + 1 - i)
    decreases attempts - i
  {
    var inner := Wrapped(Header(name, value), Base);
    var key := CanonicalKey(name);
    var n := |w.received|;
    var h1 := AddValue(w.header, name, value);
    assert Run(inner, script, w) == (script(n), World(h1, w.received + [h1], w.slept));
    if i < attempts {
      var w2 := World(h1, w.received + [h1], w.slept + [backoff * i]);
      RetryingReappends(name, value, attempts, backoff, script, i + 1, script(n), w2);
      var w' := Retrying(inner, attempts, backoff, script, i + 1, script(n), w2).1;
      assert w'.received[..n + 1] == w2.received;
      assert w'.received[..n] == w2.received[..n];
      forall j | n <= j <= n + attempts - i
        ensures Values(w'.received[j], key) == Values(w.header, key) + Repeat(value, j - n + 1)
      {
        if j == n {
          assert w'.received[n] == w2.received[n];
        } else {
          assert Repeat(value, j - n + 1) == [value] + Repeat(value, j - n);
        }
      }
    }
  }

  /**
   A header decorator listed before `FaultTolerance` sits inside the retry
   layer, and the same request is reused: each retry appends the value again,
   so the j-th call carries it j + 1 times.
   */
  lemma RetryReappendsHeader(name: string, value: string, attempts: nat, backoff: int, script: nat -> Reply, w: World)
    requires FailsFrom(script, |w.received|, attempts + 1)
    ensures
      var w' := Run(Chain(Base, [Header(name, value), FaultTolerance(attempts, backoff)]), script, w).1;
      var key := CanonicalKey(name);
      var n := |w.received|;
      && |w'.received| == n + attempts + 1
      && (forall j :: n <= j <= n + attempts ==>
            Values(w'.received[j], key) == Values(w.header, key) + Repeat(value, j - n + 1))
      && Values(w'.header, key) == Values(w.header, key) + Repeat(value, attempts + 1)
  {
    var ds := [Header(name, value), FaultTolerance(attempts, backoff)];
    assert ds[..1] == [Header(name, value)];
    assert Chain(Base, ds) == Wrapped(FaultTolerance(attempts, backoff), Wrapped(Header(name, value), Base));
    RetryingReappends(name, value, attempts, backoff, script, 0, NoReply, w);
  }

  // ---------------------------------------------------------------------------
  // Every decorated client

  /** `w'` extends `w`: no header value removed, no log entry or sleep undone. */
  ghost predicate Extends(w: World, w': World) {
    && (forall k :: k in w.header ==> k in w'.header && w.header[k] <= w'.header[k])
    && w.received <= w'.received
    && w.slept <= w'.slept
  }

  lemma ExtendsTransitive(w1: World, w2: World, w3: World)
    requires Extends(w1, w2) && Extends(w2, w3)
    ensures Extends(w1, w3)
  {
    forall k | k in w1.header
      ensures k in w3.header && w1.header[k] <= w3.header[k]
    {
      assert w1.header[k] <= w2.header[k] <= w3.header[k];
    }
  }

  /** A call through any chain of decorators only ever adds header values, log entries and sleeps. */
  lemma {:induction false} RunExtends(c: Client, script: nat -> Reply, w: World)
    ensures Extends(w, Run(c, script, w).1)
    decreases c, 0, 0
  {
    match c
    case Base =>
    case Wrapped(Header(name, value), inner) =>
      var w1 := w.(header := AddValue(w.header, name, value));
      RunExtends(inner, script, w1);
      ExtendsTransitive(w, w1, Run(inner, script, w1).1);
    case Wrapped(FaultTolerance(attempts, backoff), inner) =>
      RetryingExtends(inner, attempts, backoff, script, 0, NoReply, w);
  }

  lemma {:induction false} RetryingExtends(inner: Client, attempts: int, backoff: int, script: nat -> Reply,
                                           i: nat, last: Reply, w: World)
    ensures Extends(w, Retrying(inner, attempts, backoff, script, i, last, w).1)
    decreases inner, 1, attempts + 1 - i
  {
    if i <= attempts {
      RunExtends(inner, script, w);
      var reply := Run(inner, script, w).0;
      var w1 := Run(inner, script, w).1;
      if !reply.Succeeded() {
        var w2 := w1.(slept := w1.slept + [backoff * i]);
        RetryingExtends(inner, attempts, backoff, script, i + 1, reply, w2);
        ExtendsTransitive(w, w1, w2);
        ExtendsTransitive(w, w2, Retrying(inner, attempts, backoff, script, i + 1, reply, w2).1);
      }
    }
  }
}
