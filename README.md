# TerribleWebroxy gateway core in Dafny

TerribleWebroxy is an HTTP gateway. A client asks for
`http://<gateway>/<scheme>://<host>/<path>`. The gateway finds the target URL
in that path, refuses its own host, and hands the request to a proxy. The
proxy's `pathRewrite` empties the request's own URL; the path the upstream
server is asked for is the one inside the target. The gateway normalises the
upstream headers. A per-worker cache answers repeated URLs for 60 seconds.

`index.js` also defines two response interceptors, which buffer the upstream
body and transform it once it is complete. The trailing middleware injects a
favicon `<link>` and a `<base>` tag after the head tag of an HTML page. The
interceptor inside `modifyResponseContent` would, in addition, point every
resource reference back through the gateway and re-encode images as WebP.
Nothing in `index.js` calls `modifyResponseContent`, so as written no URL is
rewritten and no image is transcoded. The model still states what that
interceptor would do.

The model covers the string and data transforms inside `index.js`, one module each:

- `Text`: prefixes, ASCII case folding, decimal header values, UTF-8 byte
  lengths and `Buffer.concat`.
- `TargetResolver`: the proxy pattern `^\/(https?:)(\/{1,2})(.+)$` with the
  regular-expression engine's greedy choice, the rebuilt target, the
  self-loop guard and the proxy's `pathRewrite`.
- `HeadTags`: the leftmost `/<head[^>]*>/i` match, the two injections and
  `encodeURIComponent`.
- `UrlRewriter`: the per-element rewrite of `rewriteUrls`, and a `Document`
  class whose loop edits the element sequence in place.
- `ProxyHeaders`: `onProxyRes` as a class over the two header maps.
- `ResponseBuffer`: the replaced `write` and `end` as a class that collects
  chunks, and the content-type dispatch of both interceptors as a function.
- `ResponseCache`: the `memory-cache` store as a class over a map with an
  explicit clock, and `cacheMiddleware`.
- `Gateway`: one request through the cache, the resolver and the proxy hand-off.

Libraries are parameters of function type:
- `new URL(relative, base)`, which may throw;
- `buffer.toString()`;
- cheerio parsing and serialisation;
- sharp's WebP encoder, which may fail.

The clock is the `now` parameter.

Where the code and its evident intent disagree, the model follows the code:
- URL rewriting and WebP transcoding never run, because
  `modifyResponseContent` is never called.
- The favicon link comes first after the head tag and the `<base>` tag second,
  because the base tag is injected first and the favicon link is then
  injected in front of it (`HeadTags.InjectionOrder`).
- A URL resolution that throws ends the rewrite loop and abandons the
  response (`UrlRewriter.RewriteAllStops`, `ResponseBuffer.Render`). It is
  not logged and skipped. That `end` is an `async` function (index.js:121),
  so the throw becomes an unhandled promise rejection, which ends the worker
  process on Node.js 15 and later.
- `req.baseUrl` is assigned only inside `modifyResponseContent`
  (index.js:148), which never runs. The trailing middleware (index.js:220)
  therefore injects Express's own `req.baseUrl`, the mount path, which is
  empty for middleware mounted on the application, giving `<base href="">`.
  The model keeps the base URL a parameter (`ResponseBuffer.Render`).
- Only bodies passed to `res.send` are cached. Proxied bodies go out through
  `write`/`end` and are never stored (`Gateway.ForwardNeverCached`). The one
  body that is stored is the 400 self-loop refusal. A cache hit answers with
  the default status 200, so the refusal is replayed as a 200
  (`Gateway.SelfLoopReplayedAsOk`).
- Rewritten references lose their scheme, so a browser following them sends
  a path that is not a proxy request
  (`UrlRewriter.RewrittenLinkIsNotRouted`).

## Model

| member | source | states |
|---|---|---|
| TargetResolver.ParseProxyPath | index.js:157-158 | a result is an admissible reading of the path; two slashes are preferred whenever that reading is admissible |
| TargetResolver.ParseComplete | index.js:157-158 | every admissible reading is found, with the same scheme, and the two-slash reading exactly |
| TargetResolver.ParseSound | index.js:157-158 | no result means the pattern admits no reading of the path |
| TargetResolver.TargetExtraction | index.js:157-160 | `/s//r` and `/s/r` both give the target `s//r` for a scheme `s` and a rest `r` not starting with `/` |
| TargetResolver.OneSlashReading | index.js:157-158 | with one slash before a rest that does not start with a slash, the engine backs off to the one-slash reading |
| TargetResolver.Hostname | index.js:161 | the host name holds no `@`, no `:` and no character a host name may not hold |
| TargetResolver.HostnameOfPlainHost | index.js:161 | for `scheme//host` followed by a path, query or fragment, the host name is the host in lower case |
| TargetResolver.Resolve | index.js:156-172 | no target iff the path does not match; 400 with the fixed message iff the target's host is the gateway's own host; an attached target is the rebuilt match and is not the gateway |
| TargetResolver.NotProxyPassesOn | index.js:169-171 | a path the pattern does not admit passes on with no target |
| TargetResolver.SelfLoopRejected | index.js:161-165 | the gateway's own host, in any letter case and followed by any path, gets 400 `Proxying to itself is not allowed` |
| TargetResolver.SelfLoopRejectedBehindUserAndPort | index.js:161-165 | the same refusal when user information without `%` precedes the gateway's host and a decimal port follows it |
| TargetResolver.SelfLoopRejectedAtNonHostChar | index.js:161-165 | the same refusal when the gateway's host is followed by a character a host name may not hold (such as `;`) and anything without `@` |
| TargetResolver.HostnameStopsAtNonHostChar | index.js:161 | the host name ends before the first character a host name may not hold, and the authority then holds no `@` |
| TargetResolver.SelfLoopOfTarget | index.js:157-165 | a two-slash path whose target's host name is the gateway's own, with no `%` in user information, is refused with 400 |
| TargetResolver.HostnameOfAuthority | index.js:161 | the host name is read from the whole authority after the scheme: after its last `@`, before the first `:` or character a host name may not hold, lower-cased |
| TargetResolver.HostnameBehindUserAndPort | index.js:161 | with user information without `%` before the host and a decimal port after it, the host name is the host in lower case |
| TargetResolver.TargetOf | index.js:160 | the target is the scheme, two slashes and the rest; for a two-slash path it is the path without its leading `/` |
| TargetResolver.PathRewrite | index.js:184-186 | the request URL is rewritten to the empty string when it matches and kept otherwise |
| TargetResolver.PathRewriteSpec | index.js:184-186 | every URL the pattern admits maps to the empty path; every other URL maps to itself |
| TargetResolver.ForwardedPathIsEmpty | index.js:184-186 | whenever a target is attached, `pathRewrite` empties the request URL |
| HeadTags.FindHead | index.js:100 | the span found is the leftmost match of the head pattern; none exactly when it matches nowhere |
| HeadTags.InjectAfterHead | index.js:100-101 | with a match, the tag goes right after the first match only and the length grows by the tag's length; without one the text is unchanged |
| HeadTags.InjectBaseTag | index.js:98-102 | the `<base href>` tag is placed right after the first head tag; without one the page is unchanged |
| HeadTags.InjectFaviconTag | index.js:104-109 | the favicon link for the target's host name is placed right after the first head tag; without one the page is unchanged |
| HeadTags.FindHeadFrom | index.js:100 | the span found is the leftmost match at or after the start, ending at the first `>` after `<head`; none means no match |
| HeadTags.FindHeadIsFirst | index.js:100 | the leftmost match is what the search finds |
| HeadTags.ClosesUnique | index.js:100 | a match has only one end |
| HeadTags.HeadPrefixMatches | index.js:100 | any `<head...>` such as `<header>` at the start is taken as the head tag |
| HeadTags.InjectionOrder | index.js:124-125 | base then favicon injection leaves the head tag, the favicon link, the base tag, then the original rest |
| HeadTags.InjectTwice | index.js:220-221 | a second injection lands between the head tag and the first one |
| HeadTags.InjectionOrderNoHead | index.js:220-221 | without a head tag both injections leave the text unchanged |
| HeadTags.EncodeUriComponent | index.js:106 | the encoded host name holds only unreserved characters and `%`, and is no shorter than the host name |
| HeadTags.EncodeAsciiRoundTrip | index.js:106 | percent-decoding gives back any ASCII host name |
| UrlRewriter.Selected | index.js:81 | every selected element carries the attribute the loop reads and writes |
| UrlRewriter.Absolutize | index.js:77-88 | a reference starting with `http` or `//` is kept as written; any other is resolved against the target, which may throw |
| UrlRewriter.ProxiedUrl | index.js:90 | the written value starts with the proxy origin and `/`; the rest is the absolute reference without its `https://` prefix, or without its `http://` prefix, or the whole reference when it starts with neither |
| UrlRewriter.RewriteAll | index.js:81-92 | the loop keeps every element, its tag name and its set of attributes |
| UrlRewriter.UrlAttribute | index.js:83 | `href` exactly for `a` and `link`, `src` otherwise |
| TargetResolver.StripScheme | index.js:90 | the removed prefix is empty, `http://` or `https://`, and it is empty iff the value starts with neither |
| UrlRewriter.RewriteElement | index.js:81-91 | an unselected element is unchanged; a selected one fails iff its reference cannot be resolved; only the URL attribute changes |
| UrlRewriter.RewrittenValue | index.js:86-91 | the written value is the proxy origin, `/`, and the absolute reference without its scheme; absolute references are not resolved |
| UrlRewriter.ProtocolRelativeKept | index.js:86-90 | `//cdn/x` is kept and written as proxy origin + `///cdn/x` |
| UrlRewriter.HttpWordNotResolved | index.js:86-90 | a value that starts with `http` but not with `http:` or `https` is neither resolved nor stripped |
| UrlRewriter.RewriteAllPointwise | index.js:81-92 | the loop completes iff every element can be rewritten, and then each element is rewritten in place |
| UrlRewriter.RewriteAllStops | index.js:77-92 | at the first failing element the loop stops; earlier elements are rewritten and the rest are unchanged |
| UrlRewriter.RewriteAllSuffix | index.js:77-92 | a run that meets a failing element is not complete and leaves that element and all after it unchanged |
| UrlRewriter.RewriteAllPrefix | index.js:81-91 | every element before the first failure is rewritten on its own |
| UrlRewriter.RewriteAllSplit | index.js:81-92 | a completed first element is followed by the run over the rest |
| UrlRewriter.ProgressStep | index.js:81-91 | rewriting element `i` in place keeps the loop invariant for `i + 1` |
| UrlRewriter.RewrittenLinkIsNotRouted | index.js:90 | a rewritten `http`/`https` link is not a proxy path |
| UrlRewriter.Document.RewriteUrls | index.js:81-92 | the in-place loop leaves exactly the elements and outcome of the whole run |
| ProxyHeaders.StripSecurity | index.js:195-199 | the five security headers are gone and every other upstream header is unchanged |
| ProxyHeaders.WithCors | index.js:190-192 | the three CORS headers hold the fixed values and every other client header is unchanged |
| ProxyHeaders.NormaliseIdempotent | index.js:188-200 | normalising twice is normalising once |
| ProxyHeaders.Exchange.OnProxyRes | index.js:188-200 | the upstream map loses exactly the security headers and the client map gains the CORS headers |
| ProxyHeaders.Exchange.ForceCors | index.js:190-192 | the client headers gain the three CORS values; the upstream headers are untouched |
| ProxyHeaders.Exchange.DeleteSecurityHeaders | index.js:195-199 | the upstream headers lose exactly the five security headers; the client headers are untouched |
| ResponseBuffer.Classify | index.js:122-129 | HTML iff the type starts with `text/html`; image iff it starts with `image/` and not `text/html`; a missing or empty type passes through |
| ResponseBuffer.HtmlText | index.js:124-126 | the trailing interceptor never fails; the other fails iff some element's reference cannot be resolved, and otherwise writes the serialised rewritten elements |
| ResponseBuffer.Render | index.js:121-143 | passthrough keeps the buffer and headers; a failed WebP encode keeps them; a successful one sets the WebP type and its length; HTML is abandoned iff rewriting fails, otherwise written as UTF-8 with its length |
| ResponseBuffer.ContentLengthMatchesBody | index.js:127-133 | a changed body always carries a `content-length` that reads back as its byte length |
| ResponseBuffer.HtmlGrowsByTags | index.js:217-223 | in the trailing middleware a page with a head tag grows by the UTF-8 length of the two tags, and `content-length` says so |
| ResponseBuffer.RenderedHtml | index.js:220-223 | an HTML page whose text is `t` is written as the UTF-8 bytes of `t`, with their count as `content-length` |
| ResponseBuffer.TrailingText | index.js:220-221 | the trailing middleware writes the page with the favicon link and then the base tag right after its head tag |
| ResponseBuffer.InterceptedResponse.Write | index.js:213-215 | the chunk is appended to the buffer and nothing is written |
| ResponseBuffer.InterceptedResponse.End | index.js:217-228 | the rendered body is written once and the response ends; nothing happens when rendering is abandoned |
| ResponseBuffer.Transform | index.js:122-140 | the step-by-step HTML, image and passthrough branches, with the in-place URL loop, compute exactly the rendered result |
| ResponseBuffer.ChunkInPlace | index.js:213-215 | each chunk sits in the buffer right after the chunks written before it |
| Text.ConcatLength | index.js:214 | the concatenation of the first chunks is a prefix of the whole buffer |
| Text.DecimalRoundTrip | index.js:222 | the decimal `content-length` value reads back as the number set |
| Text.Utf8Append | index.js:222 | the byte length of a spliced text is the sum of its parts' byte lengths |
| ResponseCache.CacheKey | index.js:55 | the key is the prefix followed by the original URL |
| ResponseCache.CacheKeyInjective | index.js:55 | distinct URLs have distinct keys |
| ResponseCache.Lookup | index.js:56 | a value is returned iff the key is present and the time is not past its expiry |
| ResponseCache.AfterGet | index.js:56 | a lookup removes only the looked-up key, and only when it has expired |
| ResponseCache.CleanupInvisible | index.js:56 | removing expired entries never changes a later lookup |
| ResponseCache.PutThenLookup | index.js:64 | a stored value is served exactly up to its expiry |
| ResponseCache.Store.Get | index.js:56 | answers the lookup and drops the key if it has expired |
| ResponseCache.Store.Expire | index.js:64 | once the timers due by `now` have fired, exactly the entries not yet expired remain, unchanged |
| ResponseCache.StoreSent | index.js:63-66 | the sent body is stored under the key for `duration * 1000` ms, or nothing changes when that is not positive; every other key is untouched |
| ResponseCache.Store.Put | index.js:64 | stores with expiry now + ttl iff ttl is positive, and otherwise changes nothing |
| ResponseCache.Decide | index.js:55-60 | a hit is a non-empty unexpired entry for the URL's key; otherwise a miss on that key |
| ResponseCache.SentBodyServedWithinTtl | index.js:63-73 | a sent non-empty body is a hit for exactly the next 60000 ms |
| ResponseCache.EmptyBodyNeverServed | index.js:57 | a stored empty body is always a miss |
| ResponseCache.Middleware.Handle | index.js:54-61 | the decision is that of the store before the call; the store loses only an expired entry under this key |
| ResponseCache.Middleware.Send | index.js:62-66 | the body is stored for `duration * 1000` ms and sent unchanged; nothing is sent if that is not positive |
| Gateway.HandleRequest | index.js:53-73 | a cache hit is answered with status 200 before resolution; a miss goes to the resolver with the looked-up store |
| Gateway.Resolved | index.js:156-205 | a refusal is answered with 400 and stored for 60 s; a non-proxy path is not found; a target is forwarded and `pathRewrite` empties the request URL; neither of these is stored |
| Gateway.SelfLoopReplayedAsOk | index.js:57-66 | a refused request is answered 400, then 200 with the same body for 60 s, then 400 again |
| Gateway.ForwardNeverCached | index.js:174-205 | after a forwarded request every later decision is the same as before it |
| Gateway.NotFoundNeverCached | index.js:169-171 | after an unanswered request every later decision is the same as before it |
| Gateway.ForwardedTarget | index.js:157-186 | a forwarded request targets the engine's rebuilt match, and `pathRewrite` empties the request URL |
| Gateway.Serve | index.js:53-73 | running the middleware objects gives the same disposition and store as the chain function |

## Left out

- Express setup, `compression`, `helmet`, `morgan` and the ETag setting are not modelled. They are framework plumbing.
- Proxy forwarding, redirect following and WebSocket relay are not modelled. They are network I/O inside `http-proxy-middleware`.
- The `cluster` fork-and-restart loop is not modelled. It is process-level concurrency. Each `Store` is one worker's cache.
- WebP encoding, HTML parsing and serialisation, `buffer.toString()` and `new URL` are function parameters. Their internals are not modelled.
- TargetResolver.Hostname: a simplified `url.parse(...).hostname`. It takes the authority up to `/ ? # \`, then the part after the last `@`, then the part before the first `:` or the first character a host name may not hold (tab, line feed, carriage return, space, `" % ' ; < > \ ^ \` { | }`), in ASCII lower case. Punycode, IPv6 brackets, the length limit and other `url.parse` details are not modelled.
- TargetResolver.Resolve: `url.parse` decodes the user information with `decodeURIComponent`, which throws on a malformed `%` escape (for example `/https://%zz@host/`). The throw at index.js:161 goes to Express's error handling, and the only error middleware is the trailing one, which never answers. The model does not have this failure: it reads the host name and answers 400 or forwards. The self-loop lemmas therefore assume user information without `%`.
- The `async.each` variant of `rewriteUrls` is not modelled. The later declaration of the same name replaces it.
- HeadTags.InjectBaseTag assumes the base URL holds no `$`. A `$` pattern inside it would be interpreted by `String.replace`. The favicon tag cannot hold one, because `encodeURIComponent` escapes `$`.
- HeadTags.EncodeUriComponent: the round trip is proved for ASCII host names only. Multi-byte characters are encoded as UTF-8 percent escapes, but no decoding is proved for them.
- The favicon tag is inserted once per injection call. No property is stated about pages that already hold a favicon link.
- UrlRewriter.Document.RewriteUrls: the loop edits a local copy of the element sequence and stores it in the document when it stops, after the last element or at the failing one. Nothing reads the document while the loop runs, so the intermediate states are not observable.
- ResponseBuffer.Render: the `ModifyResponseContent` branches model `modifyResponseContent` (index.js:111-152) as if it were installed, but nothing calls it, so in the program as written they never run. Its `buffer` is also created once per call and shared by every response its handler sees, never reset; the model starts each response with an empty buffer.
- ResponseBuffer.Render: the upstream status and headers are taken as they are at `end`. Header writes made by other code in between are not modelled.
- ResponseCache.Middleware.Send: only string bodies are modelled. Buffers and objects passed to `send` are not.
- The order of timer callbacks in `memory-cache` is collapsed into `Store.Expire(now)`.
- The trailing four-argument middleware is taken as an interceptor of the response, but Express calls it only when an earlier handler passed an error. The model takes its `end` as written and does not model when Express calls it.
