/**
 * Pool construction and the retry/failover protocol (loadbalancer/main.go).
 *
 * `url.Parse` is an oracle `parse` that either rejects a piece of the
 * command-line list or gives the string form of the parsed URL. Forwarding a
 * request is an oracle `forward`: `forward(t)` is the outcome of the t-th
 * forward made for the request, and a failed forward carries the URL string
 * the error handler reads from the request. With forwarding supplied this way,
 * the Go call chain PingHandler -> ServeHTTP -> ErrorHandler -> (ServeHTTP |
 * PingHandler) becomes the two nested loops of HandleRequest.
 */
module LoadBalancer {
  import opened Options
  import opened RequestContext
  import opened Backends
  import opened RoundRobinAlgorithm
  import opened ServerPools

  /** The one algorithm name the load balancer knows. */
  const AlgorithmRoundRobin: string := "round-robin"

  // ---------------------------------------------------------------------------
  // strings.Split on a one-character separator, and its inverse.

  function Split(s: string, sep: char): (parts: seq<string>)
    decreases |s|
    ensures |parts| >= 1
    ensures forall i :: 0 <= i < |parts| ==> sep !in parts[i]
  {
    if s == [] then [""]
    else
      var rest := Split(s[1..], sep);
      if s[0] == sep then [""] + rest
      else [[s[0]] + rest[0]] + rest[1..]
  }

  function Join(parts: seq<string>, sep: char): string
    requires |parts| >= 1
    decreases |parts|
  {
    if |parts| == 1 then parts[0] else parts[0] + [sep] + Join(parts[1..], sep)
  }

  /** The number of occurrences of `c` in `s`. */
  function Occurrences(s: string, c: char): nat
  {
    if s == [] then 0 else (if s[0] == c then 1 else 0) + Occurrences(s[1..], c)
  }

  /** Joining the pieces with the separator gives back the split string. */
  lemma {:induction false} JoinSplit(s: string, sep: char)
    ensures Join(Split(s, sep), sep) == s
    decreases |s|
  {
    if s != [] {
      var rest := Split(s[1..], sep);
      JoinSplit(s[1..], sep);
      if s[0] == sep {
        assert Split(s, sep) == [""] + rest;
        assert s == [sep] + s[1..];
      } else {
        var parts := Split(s, sep);
        assert parts == [[s[0]] + rest[0]] + rest[1..];
        if |rest| == 1 {
          assert s == [s[0]] + rest[0];
        } else {
          assert Join(rest, sep) == rest[0] + [sep] + Join(rest[1..], sep);
          assert parts[1..] == rest[1..];
          assert s == [s[0]] + rest[0] + [sep] + Join(rest[1..], sep);
        }
      }
    }
  }

  /** Splitting a string gives one more piece than it has separators. */
  lemma {:induction false} SplitCount(s: string, sep: char)
    ensures |Split(s, sep)| == Occurrences(s, sep) + 1
    decreases |s|
  {
    if s != [] {
      SplitCount(s[1..], sep);
    }
  }

  // ---------------------------------------------------------------------------
  // generateServerPool

  /** The string forms of the pieces that parse, in input order. */
  function Parsed(pieces: seq<string>, parse: string -> Option<string>): seq<string>
    decreases |pieces|
  {
    if pieces == [] then []
    else
      var init := Parsed(pieces[..|pieces| - 1], parse);
      match parse(pieces[|pieces| - 1])
      case None => init
      case Some(u) => init + [u]
  }

  /** At most one backend per piece. */
  lemma {:induction false} ParsedLength(pieces: seq<string>, parse: string -> Option<string>)
    ensures |Parsed(pieces, parse)| <= |pieces|
    decreases |pieces|
  {
    if pieces != [] {
      ParsedLength(pieces[..|pieces| - 1], parse);
    }
  }

  /**
   * Order is kept: the backends from a list are those from its first part
   * followed by those from its second part.
   */
  lemma {:induction false} ParsedAppend(a: seq<string>, b: seq<string>, parse: string -> Option<string>)
    ensures Parsed(a + b, parse) == Parsed(a, parse) + Parsed(b, parse)
    decreases |b|
  {
    if b != [] {
      var last := b[|b| - 1];
      var b' := b[..|b| - 1];
      assert (a + b)[..|a + b| - 1] == a + b';
      assert (a + b)[|a + b| - 1] == last;
      ParsedAppend(a, b', parse);
    } else {
      assert a + b == a;
    }
  }

  /** A single piece yields its parsed form, or nothing when it is rejected. */
  lemma ParsedSingle(piece: string, parse: string -> Option<string>)
    ensures Parsed([piece], parse) == match parse(piece) case None => [] case Some(u) => [u]
  {
    assert [piece][..0] == [];
  }

  /**
   * The URLs of a list of backends. The ensures spell out the comprehension
   * for the solver's benefit; they are not a specification.
   */
  function Urls(backends: seq<Backend>): (urls: seq<string>)
    ensures |urls| == |backends|
    ensures forall i :: 0 <= i < |backends| ==> urls[i] == backends[i].url
  {
    seq(|backends|, i requires 0 <= i < |backends| => backends[i].url)
  }

  /** generateAlgorithm: every name, known or not, yields a fresh round robin. */
  method GenerateAlgorithm(algorithmName: string) returns (algorithm: RoundRobin)
    ensures fresh(algorithm) && algorithm.current == 0
  {
    if algorithmName == AlgorithmRoundRobin {
      algorithm := new RoundRobin();
    } else {
      algorithm := new RoundRobin();
    }
  }

  /** generateBackend: a fresh, alive backend for a piece that parses. */
  method GenerateBackend(piece: string, parse: string -> Option<string>) returns (backend: Option<Backend>)
    ensures parse(piece).None? ==> backend.None?
    ensures parse(piece).Some? ==>
      backend.Some? && fresh(backend.value) && backend.value.url == parse(piece).value && backend.value.alive
  {
    match parse(piece)
    case None =>
      backend := None;
    case Some(url) =>
      var b := new Backend(url);
      backend := Some(b);
  }

  /**
   * generateServerPool: the comma-separated list is split, pieces that do not
   * parse are skipped, and the others become fresh, alive backends appended in
   * input order behind a fresh round robin.
   */
  method GenerateServerPool(algorithmName: string, backendList: string, parse: string -> Option<string>)
    returns (pool: ServerPool)
    ensures fresh(pool) && fresh(pool.algorithm) && pool.Valid()
    ensures pool.algorithm.current == 0
    ensures Urls(pool.backends) == Parsed(Split(backendList, ','), parse)
    ensures |pool.backends| <= |Split(backendList, ',')|
    ensures forall i :: 0 <= i < |pool.backends| ==> fresh(pool.backends[i]) && pool.backends[i].alive
  {
    var algorithm := GenerateAlgorithm(algorithmName);
    pool := new ServerPool(algorithm);
    var pieces := Split(backendList, ',');
    var i := 0;
    while i < |pieces|
      invariant 0 <= i <= |pieces|
      invariant fresh(pool) && pool.Valid() && pool.algorithm == algorithm && algorithm.current == 0
      invariant Urls(pool.backends) == Parsed(pieces[..i], parse)
      invariant forall j :: 0 <= j < |pool.backends| ==> fresh(pool.backends[j]) && pool.backends[j].alive
    {
      var backend := GenerateBackend(pieces[i], parse);
      assert pieces[..i + 1][..i] == pieces[..i];
      if backend.Some? {
        pool.AddBackend(backend.value);
      }
      i := i + 1;
    }
    assert pieces[..i] == pieces;
    ParsedLength(pieces, parse);
  }

  // ---------------------------------------------------------------------------
  // The reverse proxy's ErrorHandler and the request lifecycle.

  /** How the t-th forward of a request went. */
  datatype Outcome = Delivered | Failed(requestURL: string)

  /** Every forward numbered in [lo, hi) failed. */
  ghost predicate FailedBetween(forward: nat -> Outcome, lo: nat, hi: nat)
  {
    forall t :: lo <= t < hi ==> forward(t).Failed?
  }

  lemma FailedConcat(forward: nat -> Outcome, lo: nat, mid: nat, hi: nat)
    requires lo <= mid <= hi
    requires FailedBetween(forward, lo, mid) && FailedBetween(forward, mid, hi)
    ensures FailedBetween(forward, lo, hi)
  {
  }

  /** What the error handler does next with a failed request. */
  datatype ErrorStep =
    | Reforward(ctx: Context)   // the same backend again
    | Reselect(ctx: Context)    // back to the pool's PingHandler

  /** How a request ends. */
  datatype Response = Served(backend: Backend) | ServiceUnavailable | Panicked

  /**
   * ErrorHandler: below MaxRetries the request goes back to the same backend
   * with its retry count one higher and nothing else changed. Otherwise the
   * backend named by the request URL is marked dead through
   * UpdateBackendStatus and the request re-enters the pool with its failover
   * count one higher; its retry count is carried over, not reset.
   */
  method ErrorHandler(pool: ServerPool, ctx: Context, requestURL: string) returns (step: ErrorStep)
    requires pool.Valid()
    modifies pool.backends
    ensures GetValueFromContext(ctx, Retries) < MaxRetries ==>
      && step == Reforward(ctx[Retries := IntValue(GetValueFromContext(ctx, Retries) + 1)])
      && forall j :: 0 <= j < |pool.backends| ==> pool.backends[j].alive == old(pool.backends[j].alive)
    ensures GetValueFromContext(ctx, Retries) >= MaxRetries ==>
      && step == Reselect(ctx[Attempts := IntValue(GetValueFromContext(ctx, Attempts) + 1)])
      && forall j :: 0 <= j < |pool.backends| ==>
           pool.backends[j].alive ==
             if IndexOfUrl(pool.backends, requestURL) == Some(j) then false else old(pool.backends[j].alive)
  {
    var retries := GetValueFromContext(ctx, Retries);
    if retries < MaxRetries {
      return Reforward(ctx[Retries := IntValue(retries + 1)]);
    }
    var attempts := GetValueFromContext(ctx, Attempts);
    var next := ctx[Attempts := IntValue(attempts + 1)];
    pool.UpdateBackendStatus(requestURL, false);
    return Reselect(next);
  }

  function Sum(s: seq<nat>): nat
  {
    if s == [] then 0 else Sum(s[..|s| - 1]) + s[|s| - 1]
  }

  /** How many selections a request whose failover count starts at a0 may make. */
  function SelectionBudget(a0: int): nat
  {
    if a0 > MaxAttempts then 0 else MaxAttempts + 1 - a0
  }

  /** How many retries a request whose retry count starts at r0 may make. */
  function RetryBudget(r0: int): nat
  {
    if r0 < MaxRetries then MaxRetries - r0 else 0
  }

  /**
   * The forwards made to successive backends: the first backend at least once
   * and at most 1 + RetryBudget(r0) times, every later backend exactly once.
   */
  ghost predicate RetryShape(forwards: seq<nat>, r0: int)
  {
    && (|forwards| > 0 ==> 1 <= forwards[0] <= 1 + RetryBudget(r0))
    && forall i :: 1 <= i < |forwards| ==> forwards[i] == 1
  }

  /**
   * The number of forwards when the first backend takes forwards[0] of them
   * and every later backend one.
   */
  function ShapeTotal(forwards: seq<nat>): nat
  {
    if forwards == [] then 0 else forwards[0] + |forwards| - 1
  }

  /**
   * With that shape, the forwards to all backends add up to ShapeTotal, at
   * most one per backend plus the first backend's retries.
   */
  lemma {:induction false} ShapeSum(forwards: seq<nat>, r0: int)
    requires RetryShape(forwards, r0)
    ensures Sum(forwards) == ShapeTotal(forwards)
    ensures Sum(forwards) <= |forwards| + RetryBudget(r0)
    decreases |forwards|
  {
    if |forwards| > 1 {
      ShapeSum(forwards[..|forwards| - 1], r0);
    }
  }

  /**
   * One more backend's forwards keep the shape: the first backend takes at
   * most 1 + RetryBudget(r0) forwards, and a later one, reached with the retry
   * count already at MaxRetries, exactly one.
   */
  lemma ShapeStep(forwards: seq<nat>, n: nat, r0: int, retries: int)
    requires RetryShape(forwards, r0)
    requires |forwards| == 0 ==> retries == r0
    requires |forwards| > 0 ==> retries >= MaxRetries
    requires n >= 1 && (n == 1 || retries + n - 1 <= MaxRetries)
    ensures RetryShape(forwards + [n], r0)
    ensures ShapeTotal(forwards + [n]) == ShapeTotal(forwards) + n
  {
  }

  /**
   * What a failover leaves: the first backend whose URL is `url` is dead and
   * every other backend keeps the flag `flags` gave it before.
   */
  ghost predicate MarkedDead(backends: seq<Backend>, url: string, flags: seq<bool>)
    requires |flags| == |backends|
    reads backends
  {
    forall j :: 0 <= j < |backends| ==>
      backends[j].alive == if IndexOfUrl(backends, url) == Some(j) then false else flags[j]
  }

  /** A failover only ever clears a flag: no backend dead before is alive after it. */
  lemma MarkedDeadRevivesNone(backends: seq<Backend>, url: string, flags: seq<bool>)
    requires |flags| == |backends| && MarkedDead(backends, url, flags)
    ensures forall j :: 0 <= j < |backends| ==> backends[j].alive ==> flags[j]
  {
  }

  /**
   * The reverse proxy's work on one backend: forward, and on each failure let
   * the ErrorHandler decide, until a forward is delivered or the handler sends
   * the request back to the pool. `t0` is the number of forwards the request
   * has had before, `n` the number made here, and `ctx` the request's context
   * afterwards. Retries change no liveness flag; the backend stays as it was.
   */
  method ServeBackend(pool: ServerPool, backend: Backend, ctx0: Context, forward: nat -> Outcome, t0: nat,
                      ghost flags: seq<bool>)
    returns (served: bool, n: nat, ctx: Context)
    requires pool.Valid() && backend in pool.backends
    requires |flags| == |pool.backends| && forall j :: 0 <= j < |flags| ==> flags[j] == pool.backends[j].alive
    modifies pool.backends
    ensures n >= 1
    ensures n == 1 || GetValueFromContext(ctx0, Retries) + n - 1 <= MaxRetries
    ensures FailedBetween(forward, t0, t0 + n - 1)
    ensures served <==> forward(t0 + n - 1) == Delivered
    ensures !served ==> FailedBetween(forward, t0, t0 + n)
    ensures served ==> forall j :: 0 <= j < |pool.backends| ==> pool.backends[j].alive == flags[j]
    ensures !served ==> forward(t0 + n - 1).Failed? && MarkedDead(pool.backends, forward(t0 + n - 1).requestURL, flags)
    ensures !served ==>
      && GetValueFromContext(ctx, Retries) >= MaxRetries
      && GetValueFromContext(ctx, Retries) == GetValueFromContext(ctx0, Retries) + n - 1
      && GetValueFromContext(ctx, Attempts) == GetValueFromContext(ctx0, Attempts) + 1
  {
    ctx := ctx0;
    n := 0;
    ghost var rEntry := GetValueFromContext(ctx0, Retries);
    while true
      invariant GetValueFromContext(ctx, Retries) == rEntry + n
      invariant n == 0 || rEntry + n <= MaxRetries
      invariant GetValueFromContext(ctx, Attempts) == GetValueFromContext(ctx0, Attempts)
      invariant forall j :: 0 <= j < |pool.backends| ==> pool.backends[j].alive == flags[j]
      invariant forall t :: t0 <= t < t0 + n ==> forward(t).Failed?
      decreases MaxRetries - GetValueFromContext(ctx, Retries)
    {
      var outcome := forward(t0 + n);
      n := n + 1;
      if outcome.Delivered? {
        return true, n, ctx;
      }
      var step := ErrorHandler(pool, ctx, outcome.requestURL);
      ctx := step.ctx;
      if step.Reselect? {
        return false, n, ctx;
      }
    }
  }

  /**
   * The rest of PingHandler once the pool has answered `ping`: a refusal or a
   * failed selection ends the request, a selected backend is served by the
   * reverse proxy. `flags` are the backends' flags as they are on entry.
   */
  method ServeSelection(pool: ServerPool, ping: PingResult, ctx: Context, forward: nat -> Outcome, t0: nat,
                        ghost flags: seq<bool>)
    returns (done: bool, response: Response, n: nat, next: Context)
    requires pool.Valid()
    requires |flags| == |pool.backends| && forall j :: 0 <= j < |flags| ==> flags[j] == pool.backends[j].alive
    requires ping == AttemptsExceeded <==> GetValueFromContext(ctx, Attempts) > MaxAttempts
    requires ping == SelectionPanicked ==> |pool.backends| == 0
    requires ping == NoBackendAlive ==> forall i :: 0 <= i < |pool.backends| ==> !pool.backends[i].alive
    requires ping.Forward? ==> ping.backend in pool.backends && ping.backend.alive
    modifies pool.backends
    ensures ping == AttemptsExceeded ==> done && response == ServiceUnavailable && n == 0
    ensures n == 0 ==> done && !response.Served?
    ensures n > 0 ==> n == 1 || GetValueFromContext(ctx, Retries) + n - 1 <= MaxRetries
    ensures n > 0 ==> FailedBetween(forward, t0, t0 + n - 1)
    ensures n > 0 ==> (done <==> forward(t0 + n - 1) == Delivered)
    ensures !done ==> FailedBetween(forward, t0, t0 + n)
    ensures done && n > 0 ==>
      response.Served? && response.backend in pool.backends && response.backend.alive
    ensures done && response == ServiceUnavailable ==>
      || GetValueFromContext(ctx, Attempts) > MaxAttempts
      || forall i :: 0 <= i < |pool.backends| ==> !pool.backends[i].alive
    ensures done && response == Panicked ==> |pool.backends| == 0
    ensures done && n > 0 ==> ping.Forward? && response == Served(ping.backend)
    ensures done ==> forall j :: 0 <= j < |pool.backends| ==> pool.backends[j].alive == flags[j]
    ensures !done ==> forward(t0 + n - 1).Failed? && MarkedDead(pool.backends, forward(t0 + n - 1).requestURL, flags)
    ensures forall j :: 0 <= j < |pool.backends| ==> pool.backends[j].alive ==> flags[j]
    ensures !done ==>
      && n > 0
      && GetValueFromContext(next, Retries) >= MaxRetries
      && GetValueFromContext(next, Retries) == GetValueFromContext(ctx, Retries) + n - 1
      && GetValueFromContext(next, Attempts) == GetValueFromContext(ctx, Attempts) + 1
  {
    next := ctx;
    n := 0;
    done := true;
    match ping {
    case AttemptsExceeded =>
      response := ServiceUnavailable;
    case NoBackendAlive =>
      response := ServiceUnavailable;
    case SelectionPanicked =>
      response := Panicked;
    case Forward(backend) =>
      var served;
      served, n, next := ServeBackend(pool, backend, ctx, forward, t0, flags);
      done := served;
      response := if served then Served(backend) else ServiceUnavailable;
      if !served {
        MarkedDeadRevivesNone(pool.backends, forward(t0 + n - 1).requestURL, flags);
      }
    }
  }

  /**
   * One pass through the pool's PingHandler: admission, selection, and the
   * forwards to the selected backend. `done` says that the request ended here
   * with `response`; otherwise the backend was given up on and the request
   * goes back to PingHandler with the context `next`. `n` forwards were made,
   * the first of them being the request's t0-th. `before` records the
   * backends' flags as they were when the pass began; the round robin's
   * counter is left as the selection over them leaves it. A pass never brings
   * a dead backend back to life: it either changes no flag or, on failover,
   * marks dead the backend named by the last failed forward.
   */
  method PingAndForward(pool: ServerPool, ctx: Context, forward: nat -> Outcome, t0: nat)
    returns (done: bool, response: Response, selected: bool, n: nat, next: Context, ghost before: seq<bool>)
    requires pool.Valid()
    modifies pool.algorithm, pool.backends
    ensures GetValueFromContext(ctx, Attempts) > MaxAttempts ==>
      done && response == ServiceUnavailable && !selected && n == 0
    ensures GetValueFromContext(ctx, Attempts) <= MaxAttempts ==> selected
    ensures n == 0 ==> done && !response.Served?
    ensures n > 0 ==> n == 1 || GetValueFromContext(ctx, Retries) + n - 1 <= MaxRetries
    ensures n > 0 ==> FailedBetween(forward, t0, t0 + n - 1)
    ensures n > 0 ==> (done <==> forward(t0 + n - 1) == Delivered)
    ensures !done ==> FailedBetween(forward, t0, t0 + n)
    ensures done && n > 0 ==>
      response.Served? && response.backend in pool.backends && response.backend.alive
    ensures done && response == ServiceUnavailable ==>
      || GetValueFromContext(ctx, Attempts) > MaxAttempts
      || forall i :: 0 <= i < |pool.backends| ==> !pool.backends[i].alive
    ensures done && response == Panicked ==> |pool.backends| == 0
    ensures !selected ==> pool.algorithm.current == old(pool.algorithm.current)
    ensures |before| == |pool.backends|
    ensures forall i :: 0 <= i < |before| ==> before[i] == old(pool.backends[i].alive)
    ensures selected && |pool.backends| > 0 ==>
      pool.algorithm.current == Select(before, old(pool.algorithm.current)).next
    ensures selected && |pool.backends| == 0 ==> pool.algorithm.current == old(pool.algorithm.current) + 1
    ensures done && n > 0 ==>
      && |pool.backends| > 0
      && Select(before, old(pool.algorithm.current)).chosen.Some?
      && response == Served(pool.backends[Select(before, old(pool.algorithm.current)).chosen.value])
    ensures done ==> forall j :: 0 <= j < |pool.backends| ==> pool.backends[j].alive == before[j]
    ensures !done ==> forward(t0 + n - 1).Failed? && MarkedDead(pool.backends, forward(t0 + n - 1).requestURL, before)
    ensures forall j :: 0 <= j < |pool.backends| ==> pool.backends[j].alive ==> before[j]
    ensures !done ==>
      && n > 0
      && GetValueFromContext(next, Retries) >= MaxRetries
      && GetValueFromContext(next, Retries) == GetValueFromContext(ctx, Retries) + n - 1
      && GetValueFromContext(next, Attempts) == GetValueFromContext(ctx, Attempts) + 1
  {
    before := AliveFlags(pool.backends);
    var ping := pool.PingHandler(ctx);
    selected := ping != AttemptsExceeded;
    done, response, n, next := ServeSelection(pool, ping, ctx, forward, t0, before);
  }

  /**
   * What one logical request has done so far: `selections` selections,
   * `forwards[i]` forwards to the i-th backend it was sent to, `total`
   * forwards in all, every one of them failed, and its counters now read
   * `attempts` and `retries`, having started at a0 and r0.
   */
  ghost predicate Progress(forward: nat -> Outcome, a0: int, r0: int, attempts: int, retries: int,
                           selections: nat, forwards: seq<nat>, total: nat)
  {
    && selections == |forwards|
    && total == ShapeTotal(forwards)
    && attempts == a0 + |forwards|
    && (|forwards| > 0 ==> a0 + |forwards| - 1 <= MaxAttempts)
    && (|forwards| == 0 ==> retries == r0)
    && (|forwards| > 0 ==> retries >= MaxRetries)
    && RetryShape(forwards, r0)
    && total <= |forwards| + RetryBudget(r0)
    && FailedBetween(forward, 0, total)
  }

  /**
   * A pass through the pool that gave its backend up after n failed forwards
   * (the retry count carried on, the failover count one higher) keeps the
   * request's progress, with one more selection and one more backend.
   */
  lemma ContinueStep(forward: nat -> Outcome, a0: int, r0: int, attempts: int, retries: int,
                     selections: nat, forwards: seq<nat>, total: nat,
                     n: nat, attempts': int, retries': int)
    requires Progress(forward, a0, r0, attempts, retries, selections, forwards, total)
    requires attempts <= MaxAttempts
    requires n > 0 && (n == 1 || retries + n - 1 <= MaxRetries)
    requires FailedBetween(forward, total, total + n)
    requires attempts' == attempts + 1
    requires retries' >= MaxRetries
    ensures Progress(forward, a0, r0, attempts', retries', selections + 1, forwards + [n], total + n)
  {
    ShapeStep(forwards, n, r0, retries);
    FailedConcat(forward, 0, total, total + n);
  }

  /**
   * The pass through the pool that ends a request: either no forward was
   * made (refused before selection, no backend alive, or a fault), or the
   * n-th forward to the selected backend was delivered after n - 1 failures.
   * The totals then obey the request's bounds.
   */
  lemma FinishStep(forward: nat -> Outcome, a0: int, r0: int, attempts: int, retries: int,
                   selections: nat, forwards: seq<nat>, total: nat,
                   selected: bool, n: nat, selections': nat, forwards': seq<nat>, total': nat)
    requires Progress(forward, a0, r0, attempts, retries, selections, forwards, total)
    requires attempts > MaxAttempts ==> !selected && n == 0
    requires attempts <= MaxAttempts ==> selected
    requires n > 0 ==> (n == 1 || retries + n - 1 <= MaxRetries)
    requires n > 0 ==> FailedBetween(forward, total, total + n - 1) && forward(total + n - 1) == Delivered
    requires selections' == if selected then selections + 1 else selections
    requires forwards' == if n > 0 then forwards + [n] else forwards
    requires total' == total + n
    ensures total' == ShapeTotal(forwards')
    ensures selections' <= SelectionBudget(a0)
    ensures |forwards'| <= selections'
    ensures RetryShape(forwards', r0)
    ensures total' <= |forwards'| + RetryBudget(r0)
    ensures a0 == 0 && r0 == 0 ==> selections' <= MaxAttempts + 1 && total' <= MaxAttempts + 1 + MaxRetries
    ensures n > 0 ==> total' > 0 && forward(total' - 1) == Delivered
    ensures FailedBetween(forward, 0, if n > 0 then total' - 1 else total')
    ensures attempts > MaxAttempts ==> a0 + |forwards'| > MaxAttempts
  {
    if n > 0 {
      ShapeStep(forwards, n, r0, retries);
      FailedConcat(forward, 0, total, total + n - 1);
    }
  }

  /**
   * One logical request, from the pool's PingHandler until it is served,
   * refused with 503, or the selection faults on an empty pool.
   * `selections` counts the algorithm's selections, `forwards[i]` the
   * forwards made to the i-th backend the request was sent to, and `total`
   * all forwards.
   *
   * The failover count rises by one per backend given up on, so there are at
   * most MaxAttempts + 1 selections; the first backend is forwarded to at most
   * 1 + MaxRetries times and, because the retry count is not reset, every later
   * backend exactly once. From an empty context that is at most 4 selections
   * and 7 forwards.
   */
  method HandleRequest(pool: ServerPool, ctx0: Context, forward: nat -> Outcome)
    returns (response: Response, selections: nat, forwards: seq<nat>, total: nat)
    requires pool.Valid()
    modifies pool.algorithm, pool.backends
    ensures total == ShapeTotal(forwards)
    ensures selections <= SelectionBudget(GetValueFromContext(ctx0, Attempts))
    ensures |forwards| <= selections
    ensures RetryShape(forwards, GetValueFromContext(ctx0, Retries))
    ensures total <= |forwards| + RetryBudget(GetValueFromContext(ctx0, Retries))
    ensures GetValueFromContext(ctx0, Attempts) == 0 && GetValueFromContext(ctx0, Retries) == 0 ==>
      selections <= MaxAttempts + 1 && total <= MaxAttempts + 1 + MaxRetries
    ensures response.Served? ==>
      && total > 0
      && forward(total - 1) == Delivered
      && response.backend in pool.backends && response.backend.alive
    ensures FailedBetween(forward, 0, if response.Served? then total - 1 else total)
    ensures response == ServiceUnavailable ==>
      || GetValueFromContext(ctx0, Attempts) + |forwards| > MaxAttempts
      || forall i :: 0 <= i < |pool.backends| ==> !pool.backends[i].alive
    ensures response == Panicked ==> |pool.backends| == 0
    ensures forall j :: 0 <= j < |pool.backends| ==> pool.backends[j].alive ==> old(pool.backends[j].alive)
  {
    ghost var a0 := GetValueFromContext(ctx0, Attempts);
    ghost var r0 := GetValueFromContext(ctx0, Retries);
    var ctx := ctx0;
    total := 0;
    selections := 0;
    forwards := [];
    while true
      invariant Progress(forward, a0, r0, GetValueFromContext(ctx, Attempts), GetValueFromContext(ctx, Retries),
                         selections, forwards, total)
      invariant forall j :: 0 <= j < |pool.backends| ==> pool.backends[j].alive ==> old(pool.backends[j].alive)
      decreases MaxAttempts + 1 - GetValueFromContext(ctx, Attempts)
    {
      ghost var attempts := GetValueFromContext(ctx, Attempts);
      ghost var retries := GetValueFromContext(ctx, Retries);
      var done, resp, selected, n, next, _ := PingAndForward(pool, ctx, forward, total);
      if done {
        ghost var selections', forwards', total' := selections, forwards, total;
        if selected {
          selections := selections + 1;
        }
        if n > 0 {
          forwards := forwards + [n];
        }
        total := total + n;
        FinishStep(forward, a0, r0, attempts, retries, selections', forwards', total',
                   selected, n, selections, forwards, total);
        return resp, selections, forwards, total;
      }
      ContinueStep(forward, a0, r0, attempts, retries, selections, forwards, total,
                   n, GetValueFromContext(next, Attempts), GetValueFromContext(next, Retries));
      selections, forwards, total := selections + 1, forwards + [n], total + n;
      ctx := next;
    }
  }
}
