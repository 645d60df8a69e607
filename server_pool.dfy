/**
 * The pool of backends and its request entry point (loadbalancer/server_pool.go).
 *
 * The pool owns the ordered list of backends, whose order is the round-robin
 * cycle, and the selection algorithm. Only the liveness flags of the listed
 * backends change once the pool has been built.
 */
module ServerPools {
  import opened Options
  import opened Backends
  import opened RoundRobinAlgorithm
  import opened RequestContext

  /** The index of the first backend whose URL string equals `url`, if any. */
  function IndexOfUrl(backends: seq<Backend>, url: string): (r: Option<nat>)
    ensures r.Some? ==> r.value < |backends| && backends[r.value].url == url
    ensures r.Some? ==> forall j :: 0 <= j < r.value ==> backends[j].url != url
    ensures r.None? ==> forall j :: 0 <= j < |backends| ==> backends[j].url != url
  {
    if backends == [] then None
    else if backends[0].url == url then Some(0)
    else match IndexOfUrl(backends[1..], url)
      case None => None
      case Some(j) => Some(j + 1)
  }

  /** What PingHandler does with a request. */
  datatype PingResult =
    | AttemptsExceeded       // 503 before any selection
    | NoBackendAlive         // 503 after a failed selection
    | SelectionPanicked      // the selection faulted on an empty pool
    | Forward(backend: Backend)

  class ServerPool {
    var backends: seq<Backend>
    const algorithm: RoundRobin

    /** The pool never lists one backend object twice. */
    ghost predicate Valid()
      reads this
    {
      forall i, j :: 0 <= i < j < |backends| ==> backends[i] != backends[j]
    }

    /** NewServerPool: no backends yet, and the given algorithm. */
    constructor (algorithm: RoundRobin)
      ensures Valid()
      ensures backends == [] && this.algorithm == algorithm
    {
      backends := [];
      this.algorithm := algorithm;
    }

    /** AddBackend: append at the end; the backends already there keep their places. */
    method AddBackend(backend: Backend)
      requires Valid() && backend !in backends
      modifies this
      ensures Valid()
      ensures backends == old(backends) + [backend]
    {
      backends := backends + [backend];
    }

    /**
     * One round of the health check: every backend is probed once, in list
     * order, and each backend's flag becomes what its own probe says.
     * `probes[i]` is the outcome of probing `backends[i]`.
     */
    method HealthCheckSweep(probes: seq<ProbeOutcome>)
      requires Valid() && |probes| == |backends|
      modifies backends
      ensures forall i :: 0 <= i < |backends| ==> backends[i].alive == IsUp(probes[i])
    {
      var i := 0;
      while i < |backends|
        invariant 0 <= i <= |backends|
        invariant forall j :: 0 <= j < i ==> backends[j].alive == IsUp(probes[j])
      {
        backends[i].UpdateStatus(probes[i]);
        i := i + 1;
      }
    }

    /**
     * UpdateBackendStatus: the first backend whose URL equals `url` gets the
     * flag `alive`; every other backend keeps its flag, and with no match
     * nothing changes.
     */
    method UpdateBackendStatus(url: string, alive: bool)
      requires Valid()
      modifies backends
      ensures forall j :: 0 <= j < |backends| ==>
        backends[j].alive == if IndexOfUrl(backends, url) == Some(j) then alive else old(backends[j].alive)
    {
      var i := 0;
      while i < |backends|
        invariant 0 <= i <= |backends|
        invariant forall j :: 0 <= j < i ==> backends[j].url != url
        invariant forall j :: 0 <= j < |backends| ==> backends[j].alive == old(backends[j].alive)
      {
        if backends[i].url == url {
          backends[i].SetAlive(alive);
          assert IndexOfUrl(backends, url) == Some(i);
          break;
        }
        i := i + 1;
      }
    }

    /**
     * PingHandler without the forwarding itself: a request whose failover
     * count is above MaxAttempts is refused before the algorithm is consulted;
     * otherwise the algorithm selects, and the request is refused when no
     * backend is alive and forwarded to exactly the selected backend when one is.
     */
    method PingHandler(ctx: Context) returns (result: PingResult)
      requires Valid()
      modifies algorithm
      ensures GetValueFromContext(ctx, Attempts) > MaxAttempts ==>
        result == AttemptsExceeded && algorithm.current == old(algorithm.current)
      ensures GetValueFromContext(ctx, Attempts) <= MaxAttempts && |backends| == 0 ==>
        result == SelectionPanicked && algorithm.current == old(algorithm.current) + 1
      ensures GetValueFromContext(ctx, Attempts) <= MaxAttempts && |backends| > 0 ==>
        var sel := Select(old(AliveFlags(backends)), old(algorithm.current));
        && algorithm.current == sel.next
        && result == (if sel.chosen.Some? then Forward(backends[sel.chosen.value]) else NoBackendAlive)
      ensures result.Forward? ==> result.backend in backends && result.backend.alive
      ensures result == NoBackendAlive ==> forall i :: 0 <= i < |backends| ==> !backends[i].alive
    {
      var attempts := GetValueFromContext(ctx, Attempts);
      if attempts > MaxAttempts {
        return AttemptsExceeded;
      }
      var pick := algorithm.GetNextBackend(backends);
      if |backends| > 0 {
        SelectPicksFirstAlive(AliveFlags(backends), old(algorithm.current));
        SelectFailsIffNoneAlive(AliveFlags(backends), old(algorithm.current));
      }
      match pick
      case DivideByZero =>
        result := SelectionPanicked;
      case NoBackendIsAlive =>
        result := NoBackendAlive;
      case Picked(backend) =>
        result := Forward(backend);
    }
  }
}
