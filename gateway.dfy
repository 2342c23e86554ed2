/** One request through the synchronous part of the middleware chain: the
    cache lookup, then target resolution, then the hand-off to the proxy. */
module Gateway {
  import opened Text
  import TargetResolver
  import opened ResponseCache

  /** How the chain disposes of a request.
      `Answered`: a body sent with `res.send`, with its status.
      `Forward`: handed to the proxy for `target`, which carries the path the
      upstream server is asked for; `upstreamPath` is what `pathRewrite` makes
      of the request's own URL.
      `NotFound`: no handler answers, so Express's final 404 handler does. */
  datatype Handled = Answered(status: nat, body: string) | Forward(target: string, upstreamPath: string) | NotFound

  /** The disposition and the cache store after it. */
  datatype Step = Step(handled: Handled, store: map<string, Entry>)

  /** The status `res.send` uses when none was set. */
  const DefaultStatus: nat := 200

  function HandleRequest(store: map<string, Entry>, originalUrl: string, now: int): (r: Step)
    // a cached body short-circuits everything after the cache
    ensures Decide(store, originalUrl, now).Hit? ==>
              r == Step(Answered(DefaultStatus, Decide(store, originalUrl, now).body), AfterGet(store, CacheKey(originalUrl), now))
    ensures Decide(store, originalUrl, now).Miss? ==>
              r == Resolved(AfterGet(store, CacheKey(originalUrl), now), originalUrl, now)
  {
    match Decide(store, originalUrl, now)
    case Hit(body) => Step(Answered(DefaultStatus, body), AfterGet(store, CacheKey(originalUrl), now))
    case Miss(_) => Resolved(AfterGet(store, CacheKey(originalUrl), now), originalUrl, now)
  }

  /** The chain after a cache miss: the resolver decides, and only a body
      sent with `res.send` is stored. */
  function Resolved(store: map<string, Entry>, originalUrl: string, now: int): (r: Step)
    ensures TargetResolver.Resolve(originalUrl).Reject? ==>
              r.handled == Answered(400, "Proxying to itself is not allowed")
              && r.store == store[CacheKey(originalUrl) := Entry("Proxying to itself is not allowed", now + 60000)]
    ensures TargetResolver.Resolve(originalUrl) == TargetResolver.Next(None) ==> r == Step(NotFound, store)
    ensures TargetResolver.Resolve(originalUrl).Next? && TargetResolver.Resolve(originalUrl).target.Some? ==>
              r == Step(Forward(TargetResolver.Resolve(originalUrl).target.value, ""), store)
  {
    match TargetResolver.Resolve(originalUrl)
    case Reject(status, body) => Step(Answered(status, body), StoreSent(store, CacheKey(originalUrl), body, DurationSeconds, now))
    case Next(None) => Step(NotFound, store)
    case Next(Some(target)) =>
      TargetResolver.ForwardedPathIsEmpty(originalUrl);
      Step(Forward(target, TargetResolver.PathRewrite(originalUrl)), store)
  }

  /** A request for the gateway itself is refused with 400; the refusal goes
      through the caching `send`, so for the next 60 seconds the same URL is
      answered from the cache with the default status 200, and after that it
      is refused with 400 again. */
  lemma SelfLoopReplayedAsOk(store: map<string, Entry>, originalUrl: string, now: int, later: int)
    requires TargetResolver.Resolve(originalUrl).Reject?
    requires Decide(store, originalUrl, now).Miss?
    requires now <= later
    ensures var first := HandleRequest(store, originalUrl, now);
            && first.handled == Answered(400, "Proxying to itself is not allowed")
            && (later <= now + 60000 ==>
                  HandleRequest(first.store, originalUrl, later).handled == Answered(200, "Proxying to itself is not allowed"))
            && (later > now + 60000 ==>
                  HandleRequest(first.store, originalUrl, later).handled == Answered(400, "Proxying to itself is not allowed"))
  {
    var key := CacheKey(originalUrl);
    var first := HandleRequest(store, originalUrl, now);
    assert first.store == AfterGet(store, key, now)[key := Entry(TargetResolver.SelfLoopMessage, now + 60000)];
    SentBodyServedWithinTtl(AfterGet(store, key, now), originalUrl, TargetResolver.SelfLoopMessage, now, later);
  }

  /** A forwarded request leaves nothing behind in the cache: every later
      request, for any URL, is decided exactly as if it had not happened. */
  lemma ForwardNeverCached(store: map<string, Entry>, originalUrl: string, now: int, other: string, later: int)
    requires HandleRequest(store, originalUrl, now).handled.Forward?
    requires now <= later
    ensures Decide(HandleRequest(store, originalUrl, now).store, other, later) == Decide(store, other, later)
  {
    CleanupInvisible(store, CacheKey(originalUrl), now, CacheKey(other), later);
  }

  /** The same holds for a request no handler answers. */
  lemma NotFoundNeverCached(store: map<string, Entry>, originalUrl: string, now: int, other: string, later: int)
    requires HandleRequest(store, originalUrl, now).handled.NotFound?
    requires now <= later
    ensures Decide(HandleRequest(store, originalUrl, now).store, other, later) == Decide(store, other, later)
  {
    CleanupInvisible(store, CacheKey(originalUrl), now, CacheKey(other), later);
  }

  /** A forwarded request was a proxy path, its target is the engine's
      reading of it, and `pathRewrite` empties the request's own URL. */
  lemma ForwardedTarget(store: map<string, Entry>, originalUrl: string, now: int)
    requires HandleRequest(store, originalUrl, now).handled.Forward?
    ensures TargetResolver.ParseProxyPath(originalUrl).Some?
    ensures HandleRequest(store, originalUrl, now).handled
            == Forward(TargetResolver.TargetOf(TargetResolver.ParseProxyPath(originalUrl).value), "")
  {
  }

  /** The chain run against one worker's cache middleware. */
  method Serve(cache: Middleware, originalUrl: string, now: int) returns (h: Handled)
    requires cache.duration == DurationSeconds
    modifies cache.store
    ensures Step(h, cache.store.entries) == HandleRequest(old(cache.store.entries), originalUrl, now)
  {
    var decision := cache.Handle(originalUrl, now);
    if decision.Hit? {
      return Answered(DefaultStatus, decision.body);
    }
    var outcome := TargetResolver.Resolve(originalUrl);
    if outcome.Reject? {
      var sent := cache.Send(decision.key, outcome.body, now);
      return Answered(outcome.status, outcome.body);
    }
    if outcome.target.None? {
      return NotFound;
    }
    return Forward(outcome.target.value, TargetResolver.PathRewrite(originalUrl));
  }
}
