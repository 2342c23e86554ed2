/** Header normalisation on every upstream response: permissive CORS headers
    on the client response, restrictive security headers removed from the
    upstream response. Header names are kept lower-cased, as Node.js stores
    them. */
module ProxyHeaders {

  const SecurityHeaders: set<string> := {
    "x-frame-options", "x-content-type-options", "x-xss-protection",
    "content-security-policy", "strict-transport-security"
  }

  const AllowOrigin: string := "access-control-allow-origin"
  const AllowMethods: string := "access-control-allow-methods"
  const AllowHeaders: string := "access-control-allow-headers"

  const CorsHeaders: map<string, string> := map[
    AllowOrigin := "*",
    AllowMethods := "GET,PUT,POST,DELETE,OPTIONS",
    AllowHeaders := "Content-Type, Authorization, Content-Length, X-Requested-With"
  ]

  /** The upstream headers after the five `delete`s. */
  function StripSecurity(upstream: map<string, string>): (r: map<string, string>)
    ensures forall k :: k in r <==> k in upstream && k !in SecurityHeaders
    ensures forall k :: k in r ==> r[k] == upstream[k]
  {
    upstream - SecurityHeaders
  }

  /** The client headers after the three `res.header` calls. */
  function WithCors(client: map<string, string>): (r: map<string, string>)
    ensures AllowOrigin in r && r[AllowOrigin] == "*"
    ensures AllowMethods in r && r[AllowMethods] == "GET,PUT,POST,DELETE,OPTIONS"
    ensures AllowHeaders in r && r[AllowHeaders] == "Content-Type, Authorization, Content-Length, X-Requested-With"
    ensures forall k :: k !in CorsHeaders ==> (k in r <==> k in client)
    ensures forall k :: k in client && k !in CorsHeaders ==> r[k] == client[k]
  {
    client + CorsHeaders
  }

  /** Normalising a second time changes nothing. */
  lemma NormaliseIdempotent(upstream: map<string, string>, client: map<string, string>)
    ensures StripSecurity(StripSecurity(upstream)) == StripSecurity(upstream)
    ensures WithCors(WithCors(client)) == WithCors(client)
  {
    assert StripSecurity(StripSecurity(upstream)).Keys == StripSecurity(upstream).Keys;
    assert WithCors(WithCors(client)).Keys == WithCors(client).Keys;
  }

  /** The headers of one proxied exchange: what the upstream server sent, and
      what the gateway has set on its own response so far. */
  class Exchange {
    var upstream: map<string, string>
    var client: map<string, string>

    constructor (upstream: map<string, string>, client: map<string, string>)
      ensures this.upstream == upstream && this.client == client
    {
      this.upstream := upstream;
      this.client := client;
    }

    /** `onProxyRes` */
    method OnProxyRes()
      modifies this
      ensures upstream == StripSecurity(old(upstream))
      ensures client == WithCors(old(client))
      ensures forall k :: k in SecurityHeaders ==> k !in upstream
    {
      ForceCors();
      DeleteSecurityHeaders();
    }

    /** The three `res.header` calls. */
    method ForceCors()
      modifies this
      ensures client == WithCors(old(client)) && upstream == old(upstream)
    {
      client := client[AllowOrigin := CorsHeaders[AllowOrigin]];
      client := client[AllowMethods := CorsHeaders[AllowMethods]];
      client := client[AllowHeaders := CorsHeaders[AllowHeaders]];
      assert client.Keys == old(client).Keys + CorsHeaders.Keys;
    }

    /** The five `delete`s on the upstream header map. */
    method DeleteSecurityHeaders()
      modifies this
      ensures upstream == StripSecurity(old(upstream)) && client == old(client)
    {
      upstream := upstream - {"x-frame-options"};
      upstream := upstream - {"x-content-type-options"};
      upstream := upstream - {"x-xss-protection"};
      upstream := upstream - {"content-security-policy"};
      upstream := upstream - {"strict-transport-security"};
      assert upstream.Keys == old(upstream).Keys - SecurityHeaders;
    }
  }
}
