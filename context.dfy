/**
 * Request-scoped counters of the load balancer (loadbalancer/main.go).
 *
 * The Go code keeps the two counters of a request in its `context.Context`
 * under the string keys "Attempts" and "Retries". A context is modelled as a
 * map from keys to stored values; `context.WithValue(ctx, k, v)` is the map
 * update `ctx[k := v]`, whose later lookups see the newest binding.
 */
module RequestContext {

  /** The failover counter's key. */
  const Attempts: string := "Attempts"
  /** The same-backend retry counter's key. */
  const Retries: string := "Retries"
  /** How often one backend is re-tried before failover. */
  const MaxRetries: int := 3
  /** How many failovers one request may make before it is refused. */
  const MaxAttempts: int := 3

  /** A value stored in a context: an `int`, or anything else. */
  datatype CtxValue = IntValue(i: int) | OtherValue

  type Context = map<string, CtxValue>

  /** getValueFromContext: the int stored under `key`, or 0. */
  function GetValueFromContext(ctx: Context, key: string): int
  {
    if key in ctx && ctx[key].IntValue? then ctx[key].i else 0
  }

  /** A key that was never stored, or holds something other than an int, reads as 0. */
  lemma DefaultIsZero(ctx: Context, key: string)
    requires key !in ctx || ctx[key].OtherValue?
    ensures GetValueFromContext(ctx, key) == 0
  {
  }

  /**
   * Storing an int with `WithValue` and reading it back returns it, and reading
   * any other key is not affected.
   */
  lemma WithValueThenGet(ctx: Context, key: string, other: string, n: int)
    ensures GetValueFromContext(ctx[key := IntValue(n)], key) == n
    ensures other != key ==>
      GetValueFromContext(ctx[key := IntValue(n)], other) == GetValueFromContext(ctx, other)
  {
  }
}
