/** The first routing stage: read the inbound path as
    `/<scheme>:/<rest>` or `/<scheme>://<rest>`, rebuild the target URL,
    refuse the gateway's own host, and compute what the proxy's `pathRewrite`
    makes of the request's own URL. */
module TargetResolver {
  import opened Text

  const SelfHost: string := "terriblewebroxy.o-lawd-he-comin.repl.co"
  const SelfLoopStatus: nat := 400
  const SelfLoopMessage: string := "Proxying to itself is not allowed"

  /** The three capture groups of `^\/(https?:)(\/{1,2})(.+)$`. */
  datatype ProxyMatch = ProxyMatch(scheme: string, slashes: string, rest: string)

  /** What `.` refuses in a JavaScript regular expression without the `s` flag. */
  predicate IsLineTerminator(c: char) {
    c == '\n' || c == '\r' || c == '\U{2028}' || c == '\U{2029}'
  }

  predicate NoLineTerminator(s: string) {
    forall i :: 0 <= i < |s| ==> !IsLineTerminator(s[i])
  }

  /** `m` is one way of reading `path` against the proxy pattern; the regular
      expression engine picks one of them (see ParseProxyPath). */
  predicate Admits(path: string, m: ProxyMatch) {
    && (m.scheme == "http:" || m.scheme == "https:")
    && (m.slashes == "/" || m.slashes == "//")
    && |m.rest| > 0
    && NoLineTerminator(m.rest)
    && path == "/" + m.scheme + m.slashes + m.rest
  }

  /** `https?:` right after the leading slash; `s?` is tried first. */
  function SchemeOf(path: string): (s: string)
    ensures s == "" || s == "http:" || s == "https:"
    ensures s != "" ==> StartsWith(path, "/" + s)
  {
    if StartsWith(path, "/https:") then "https:"
    else if StartsWith(path, "/http:") then "http:"
    else ""
  }

  /** `path.match(/^\/(https?:)(\/{1,2})(.+)$/)`: the greedy `\/{1,2}` takes two
      slashes whenever the remainder after them is still a non-empty run of
      non-line-terminators, and backs off to one slash otherwise. */
  function ParseProxyPath(path: string): (r: Option<ProxyMatch>)
    ensures r.Some? ==> Admits(path, r.value)
    ensures r.Some? && r.value.slashes == "/" ==>
              !Admits(path, ProxyMatch(r.value.scheme, "//", r.value.rest[1..]))
  {
    var scheme := SchemeOf(path);
    if scheme == "" then None
    else if TwoSlashes(path, scheme) then
      PrefixSplit(path, "/" + scheme + "//");
      Some(ProxyMatch(scheme, "//", path[|scheme| + 3..]))
    else if StartsWith(path, "/" + scheme + "/") && |path| > |scheme| + 2 && NoLineTerminator(path[|scheme| + 2..]) then
      PrefixSplit(path, "/" + scheme + "/");
      var rest := path[|scheme| + 2..];
      DropPrefix("/" + scheme + "//", rest[1..]);
      Some(ProxyMatch(scheme, "/", rest))
    else None
  }

  /** The two-slash reading of `path` after `scheme` is possible. */
  predicate TwoSlashes(path: string, scheme: string) {
    StartsWith(path, "/" + scheme + "//") && |path| > |scheme| + 3 && NoLineTerminator(path[|scheme| + 3..])
  }

  /** The scheme of an admitted reading is the one the parser sees. */
  lemma SchemeOfAdmitted(path: string, m: ProxyMatch)
    requires Admits(path, m)
    ensures SchemeOf(path) == m.scheme
  {
    var tail := m.slashes + m.rest;
    assert path == "/" + m.scheme + tail;
    if m.scheme == "https:" {
      assert "/" + m.scheme == "/https:";
      StartsWithConcat("/https:", tail);
    } else {
      assert "/" + m.scheme == "/http:";
      StartsWithConcat("/http:", tail);
      assert path[5] == ':';
    }
  }

  /** Every reading the pattern admits is found, and when the admitted reading
      uses two slashes it is exactly the one the engine picks. */
  lemma ParseComplete(path: string, m: ProxyMatch)
    requires Admits(path, m)
    ensures ParseProxyPath(path).Some?
    ensures ParseProxyPath(path).value.scheme == m.scheme
    ensures m.slashes == "//" ==> ParseProxyPath(path).value == m
  {
    SchemeOfAdmitted(path, m);
    DropPrefix("/" + m.scheme + m.slashes, m.rest);
    if m.slashes == "/" && !TwoSlashes(path, m.scheme) {
      assert StartsWith(path, "/" + m.scheme + "/");
    }
  }

  /** A path no reading admits is not a proxy request. */
  lemma ParseSound(path: string)
    requires ParseProxyPath(path).None?
    ensures forall m :: !Admits(path, m)
  {
    forall m | Admits(path, m) ensures false {
      ParseComplete(path, m);
    }
  }

  /** `${match[1]}//${match[3]}`: the slashes of the path are normalised to two,
      so a two-slash path names its target verbatim after the leading `/`. */
  function TargetOf(m: ProxyMatch): (t: string)
    ensures StartsWith(t, m.scheme + "//") && t[|m.scheme| + 2..] == m.rest
    ensures m.slashes == "//" ==> "/" + t == "/" + m.scheme + m.slashes + m.rest
  {
    DropPrefix(m.scheme + "//", m.rest);
    m.scheme + "//" + m.rest
  }

  /** Both spellings `/<s>//<r>` and `/<s>/<r>` reach the target `<s>//<r>`
      when `r` does not itself begin with a slash. */
  lemma TargetExtraction(s: string, r: string)
    requires s == "http:" || s == "https:"
    requires |r| > 0 && r[0] != '/' && NoLineTerminator(r)
    ensures ParseProxyPath("/" + s + "//" + r) == Some(ProxyMatch(s, "//", r))
    ensures ParseProxyPath("/" + s + "/" + r) == Some(ProxyMatch(s, "/", r))
    ensures TargetOf(ParseProxyPath("/" + s + "//" + r).value) == s + "//" + r
    ensures TargetOf(ParseProxyPath("/" + s + "/" + r).value) == s + "//" + r
  {
    ParseComplete("/" + s + "//" + r, ProxyMatch(s, "//", r));
    OneSlashReading(s, r);
  }

  /** With one slash and a rest that does not start with another, the engine
      cannot take two slashes and backs off to one. */
  lemma OneSlashReading(s: string, r: string)
    requires s == "http:" || s == "https:"
    requires |r| > 0 && r[0] != '/' && NoLineTerminator(r)
    ensures ParseProxyPath("/" + s + "/" + r) == Some(ProxyMatch(s, "/", r))
  {
    var one := "/" + s + "/" + r;
    ParseComplete(one, ProxyMatch(s, "/", r));
    DropPrefix("/" + s + "/", r);
    assert one[|s| + 2] == r[0];
    assert !StartsWith(one, "/" + s + "//") by {
      assert ("/" + s + "//")[|s| + 2] == '/';
    }
  }

  // ---------------------------------------------------------------------------
  // Host names. `url.parse(target).hostname` is not part of this model; it is
  // replaced by this extractor: the authority runs to the first `/`, `?`, `#`
  // or `\`, user information ends at its last `@`, the host ends at the first
  // character a host name may not hold or at the `:` of a port, and the name
  // is lower-cased.

  predicate EndsAuthority(c: char) {
    c == '/' || c == '?' || c == '#' || c == '\\'
  }

  function Authority(s: string): (a: string)
    ensures StartsWith(s, a)
    ensures forall i :: 0 <= i < |a| ==> !EndsAuthority(a[i])
    ensures |a| < |s| ==> EndsAuthority(s[|a|])
  {
    if s == [] || EndsAuthority(s[0]) then []
    else
      var a := [s[0]] + Authority(s[1..]);
      assert s == [s[0]] + s[1..];
      a
  }

  /** The part after the last occurrence of `c`, or all of `s`. */
  function AfterLast(s: string, c: char): (r: string)
    ensures c !in r
    ensures c !in s ==> r == s
    ensures |r| <= |s| && r == s[|s| - |r|..]
  {
    if s == [] then []
    else if s[|s| - 1] == c then []
    else
      var r := AfterLast(s[..|s| - 1], c) + [s[|s| - 1]];
      assert s[..|s| - 1] + [s[|s| - 1]] == s;
      r
  }

  /** The characters `url.parse` never lets into a host name: the host ends
      at the first of them. */
  predicate NonHostChar(c: char) {
    || c == '\t' || c == '\n' || c == '\r' || c == ' ' || c == '"' || c == '%' || c == '\''
    || c == ';' || c == '<' || c == '>' || c == '\\' || c == '^' || c == '`'
    || c == '{' || c == '|' || c == '}'
  }

  /** Where the host name stops: a character a host may not hold, or the `:`
      that starts a port. */
  predicate EndsHost(c: char) {
    c == ':' || NonHostChar(c)
  }

  /** The host part of what follows the user information. */
  function HostPart(s: string): (r: string)
    ensures forall i :: 0 <= i < |r| ==> !EndsHost(r[i])
    ensures StartsWith(s, r)
    ensures |r| < |s| ==> EndsHost(s[|r|])
  {
    if s == [] || EndsHost(s[0]) then []
    else
      var r := [s[0]] + HostPart(s[1..]);
      assert s == [s[0]] + s[1..];
      r
  }

  /** `url.replace(/^https?:\/\//, '')`: at most one leading `http://` or
      `https://` is removed. */
  function StripScheme(url: string): (r: string)
    ensures |r| <= |url| && url == url[..|url| - |r|] + r
    ensures url[..|url| - |r|] == "" || url[..|url| - |r|] == "http://" || url[..|url| - |r|] == "https://"
    ensures url[..|url| - |r|] == "" <==> !StartsWith(url, "http://") && !StartsWith(url, "https://")
  {
    if StartsWith(url, "https://") then url[8..]
    else if StartsWith(url, "http://") then url[7..]
    else url
  }

  /** The host name holds no user information, no port and no character a
      host may not hold. */
  function Hostname(url: string): (h: string)
    ensures forall i :: 0 <= i < |h| ==> h[i] != '@' && !EndsHost(h[i])
  {
    var afterUser := AfterLast(Authority(StripScheme(url)), '@');
    var host := HostPart(afterUser);
    var h := Lower(host);
    forall i | 0 <= i < |h| ensures h[i] != '@' && !EndsHost(h[i]) {
      assert host[i] == afterUser[i];
      LowerHostChar(host[i]);
    }
    h
  }

  /** Lower-casing keeps a host character a host character. */
  lemma LowerHostChar(c: char)
    requires c != '@' && !EndsHost(c)
    ensures LowerChar(c) != '@' && !EndsHost(LowerChar(c))
  {
  }

  lemma StripSchemeOf(scheme: string, s: string)
    requires scheme == "http:" || scheme == "https:"
    ensures StripScheme(scheme + "//" + s) == s
  {
    var url := scheme + "//" + s;
    if scheme == "https:" {
      assert url == "https://" + s;
      StartsWithConcat("https://", s);
      assert url[8..] == s;
    } else {
      assert url == "http://" + s;
      StartsWithConcat("http://", s);
      assert !StartsWith(url, "https://") by { assert url[4] == ':'; }
      assert url[7..] == s;
    }
  }

  /** A plain host followed by a path, query or fragment is read back
      lower-cased. */
  lemma HostnameOfPlainHost(scheme: string, host: string, tail: string)
    requires scheme == "http:" || scheme == "https:"
    requires forall i :: 0 <= i < |host| ==> !EndsAuthority(host[i]) && host[i] != '@' && !EndsHost(host[i])
    requires tail == [] || EndsAuthority(tail[0])
    ensures Hostname(scheme + "//" + host + tail) == Lower(host)
  {
    assert scheme + "//" + host + tail == scheme + "//" + (host + tail);
    StripSchemeOf(scheme, host + tail);
    AuthorityOfHost(host, tail);
    assert '@' !in host;
    HostPartOfHost(host);
  }

  lemma {:induction false} HostPartOfHost(host: string)
    requires forall i :: 0 <= i < |host| ==> !EndsHost(host[i])
    ensures HostPart(host) == host
  {
    if host != [] {
      HostPartOfHost(host[1..]);
    }
  }

  lemma {:induction false} AuthorityOfHost(host: string, tail: string)
    requires forall i :: 0 <= i < |host| ==> !EndsAuthority(host[i])
    requires tail == [] || EndsAuthority(tail[0])
    ensures Authority(host + tail) == host
  {
    if host != [] {
      assert (host + tail)[1..] == host[1..] + tail;
      AuthorityOfHost(host[1..], tail);
    } else {
      assert host + tail == tail;
    }
  }

  // ---------------------------------------------------------------------------
  // The routing middleware

  /** `Next(None)`: pass on, not a proxy request. `Next(Some(t))`: pass on with
      `req.target = t`. `Reject`: answer at once; nothing is attached. */
  datatype Outcome = Next(target: Option<string>) | Reject(status: nat, body: string)

  function Resolve(path: string): (r: Outcome)
    ensures r.Next? && r.target.None? <==> ParseProxyPath(path).None?
    ensures r.Reject? ==> r == Reject(SelfLoopStatus, SelfLoopMessage)
    ensures r.Reject? <==> ParseProxyPath(path).Some? && Hostname(TargetOf(ParseProxyPath(path).value)) == SelfHost
    ensures r.Next? && r.target.Some? ==>
              Hostname(r.target.value) != SelfHost
              && r.target.value == TargetOf(ParseProxyPath(path).value)
  {
    match ParseProxyPath(path)
    case None => Next(None)
    case Some(m) =>
      var target := TargetOf(m);
      if Hostname(target) == SelfHost then Reject(SelfLoopStatus, SelfLoopMessage)
      else Next(Some(target))
  }

  /** A path that is not a proxy request is passed on untouched. */
  lemma NotProxyPassesOn(path: string)
    requires forall m :: !Admits(path, m)
    ensures Resolve(path) == Next(None)
  {
  }

  /** The guard fires for the gateway's own host in any letter case,
      followed by any path, query or fragment. */
  lemma SelfLoopRejected(scheme: string, host: string, tail: string)
    requires scheme == "http:" || scheme == "https:"
    requires forall i :: 0 <= i < |host| ==> !EndsAuthority(host[i]) && host[i] != '@' && !EndsHost(host[i])
    requires Lower(host) == SelfHost
    requires tail == [] || EndsAuthority(tail[0])
    requires NoLineTerminator(host + tail)
    ensures Resolve("/" + scheme + "//" + host + tail) == Reject(400, "Proxying to itself is not allowed")
  {
    var rest := host + tail;
    assert |host| == |SelfHost|;
    ParseComplete("/" + scheme + "//" + host + tail, ProxyMatch(scheme, "//", rest));
    assert TargetOf(ProxyMatch(scheme, "//", rest)) == scheme + "//" + host + tail;
    HostnameOfPlainHost(scheme, host, tail);
  }

  /** The host ends at the first character a host name may not hold, so the
      guard fires for the gateway's host followed by such a character and
      anything without an `@`. */
  lemma SelfLoopRejectedAtNonHostChar(scheme: string, host: string, c: char, more: string)
    requires scheme == "http:" || scheme == "https:"
    requires forall i :: 0 <= i < |host| ==> !EndsAuthority(host[i]) && host[i] != '@' && !EndsHost(host[i])
    requires Lower(host) == SelfHost
    requires NonHostChar(c) && '@' !in more
    requires NoLineTerminator(host + [c] + more)
    ensures Resolve("/" + scheme + "//" + host + [c] + more) == Reject(400, "Proxying to itself is not allowed")
  {
    var rest := host + [c] + more;
    assert "/" + scheme + "//" + host + [c] + more == "/" + scheme + "//" + rest;
    HostnameStopsAtNonHostChar(scheme, host, c, more);
    SelfLoopOfTarget(scheme, rest);
  }

  /** The host name read from `host`, a character a host may not hold and
      anything without an `@` is `host`. */
  lemma HostnameStopsAtNonHostChar(scheme: string, host: string, c: char, more: string)
    requires scheme == "http:" || scheme == "https:"
    requires forall i :: 0 <= i < |host| ==> !EndsAuthority(host[i]) && host[i] != '@' && !EndsHost(host[i])
    requires NonHostChar(c) && '@' !in more
    ensures Hostname(scheme + "//" + (host + [c] + more)) == Lower(host)
    ensures '@' !in Authority(host + [c] + more)
  {
    StripSchemeOf(scheme, host + [c] + more);
    HostBeforeNonHostChar(host, c, more);
  }

  lemma HostBeforeNonHostChar(host: string, c: char, more: string)
    requires forall i :: 0 <= i < |host| ==> !EndsAuthority(host[i]) && host[i] != '@' && !EndsHost(host[i])
    requires NonHostChar(c) && '@' !in more
    ensures '@' !in Authority(host + [c] + more)
    ensures HostPart(Authority(host + [c] + more)) == host
  {
    var s := host + [c] + more;
    NoneOf(host, c, more, '@');
    var a := Authority(s);
    assert '@' !in a by {
      forall i | 0 <= i < |a| ensures a[i] != '@' {
        assert a[i] == s[i];
      }
    }
    assert |a| >= |host|;
    if |a| == |host| {
      Splice(host, [c], more);
      HostPartOfHost(host);
    } else {
      PrefixPast(host, c, more, |a|);
      HostPartOf(host, c, more[..|a| - |host| - 1]);
    }
  }


  /** The guard also fires when user information without `%` escapes is
      written in front of the gateway's host and a port after it. */
  lemma SelfLoopRejectedBehindUserAndPort(scheme: string, user: string, host: string, port: string, tail: string)
    requires scheme == "http:" || scheme == "https:"
    requires forall i :: 0 <= i < |user| ==> !EndsAuthority(user[i]) && user[i] != '%'
    requires forall i :: 0 <= i < |host| ==> !EndsAuthority(host[i]) && host[i] != '@' && !EndsHost(host[i])
    requires Lower(host) == SelfHost
    requires forall i :: 0 <= i < |port| ==> '0' <= port[i] <= '9'
    requires tail == [] || EndsAuthority(tail[0])
    requires NoLineTerminator(user + "@" + host + ":" + port + tail)
    ensures Resolve("/" + scheme + "//" + user + "@" + host + ":" + port + tail) == Reject(400, "Proxying to itself is not allowed")
  {
    var rest := user + "@" + host + ":" + port + tail;
    assert rest[|user|] == '@';
    JoinFive(scheme, user, host, port, tail);
    HostnameBehindUserAndPort(scheme, user, host, port, tail);
    AuthorityBehindUser(user, host, port, tail);
    SelfLoopOfTarget(scheme, rest);
  }

  /** A two-slash path whose target names the gateway is refused. */
  lemma SelfLoopOfTarget(scheme: string, rest: string)
    requires scheme == "http:" || scheme == "https:"
    requires |rest| > 0 && NoLineTerminator(rest)
    requires '@' !in Authority(rest) || '%' !in Authority(rest)
    requires Hostname(scheme + "//" + rest) == SelfHost
    ensures Resolve("/" + scheme + "//" + rest) == Reject(400, "Proxying to itself is not allowed")
  {
    ParseComplete("/" + scheme + "//" + rest, ProxyMatch(scheme, "//", rest));
  }

  lemma JoinFive(scheme: string, user: string, host: string, port: string, tail: string)
    ensures "/" + scheme + "//" + user + "@" + host + ":" + port + tail
            == "/" + scheme + "//" + (user + "@" + host + ":" + port + tail)
    ensures scheme + "//" + user + "@" + host + ":" + port + tail
            == scheme + "//" + (user + "@" + host + ":" + port + tail)
    ensures scheme + "//" + user + "@" + host + ":" + port + tail
            == scheme + "//" + (user + ['@'] + (host + [':'] + port)) + tail
  {
  }

  /** No character of `s` ends an authority. */
  predicate Plain(s: string) {
    forall i :: 0 <= i < |s| ==> !EndsAuthority(s[i])
  }

  lemma PlainJoin(a: string, c: char, b: string)
    requires Plain(a) && Plain(b) && !EndsAuthority(c)
    ensures Plain(a + [c] + b)
  {
    var s := a + [c] + b;
    forall i | 0 <= i < |s| ensures !EndsAuthority(s[i]) {
      if i < |a| { assert s[i] == a[i]; }
      else if i > |a| { assert s[i] == b[i - |a| - 1]; }
    }
  }

  /** The host name is read from the whole authority written after the scheme,
      when it holds no `%` escape. */
  lemma HostnameOfAuthority(scheme: string, authority: string, tail: string)
    requires scheme == "http:" || scheme == "https:"
    requires Plain(authority) && '%' !in authority
    requires tail == [] || EndsAuthority(tail[0])
    ensures Hostname(scheme + "//" + authority + tail) == Lower(HostPart(AfterLast(authority, '@')))
  {
    assert scheme + "//" + authority + tail == scheme + "//" + (authority + tail);
    StripSchemeOf(scheme, authority + tail);
    AuthorityOfHost(authority, tail);
  }

  /** The host name skips user information up to the last `@` and stops at
      the `:` of the port. */
  lemma HostnameBehindUserAndPort(scheme: string, user: string, host: string, port: string, tail: string)
    requires scheme == "http:" || scheme == "https:"
    requires forall i :: 0 <= i < |user| ==> !EndsAuthority(user[i]) && user[i] != '%'
    requires forall i :: 0 <= i < |host| ==> !EndsAuthority(host[i]) && host[i] != '@' && !EndsHost(host[i])
    requires forall i :: 0 <= i < |port| ==> '0' <= port[i] <= '9'
    requires tail == [] || EndsAuthority(tail[0])
    ensures Hostname(scheme + "//" + user + "@" + host + ":" + port + tail) == Lower(host)
  {
    var hostPort := host + [':'] + port;
    PlainJoin(host, ':', port);
    PlainJoin(user, '@', hostPort);
    NoneOf(host, ':', port, '@');
    NoneOf(host, ':', port, '%');
    NoneOf(user, '@', hostPort, '%');
    AfterLastOf(user, '@', hostPort);
    HostPartOf(host, ':', port);
    JoinFive(scheme, user, host, port, tail);
    HostnameOfAuthority(scheme, user + ['@'] + hostPort, tail);
  }

  /** The authority of such a target is the user, host and port, none of
      which holds a `%` escape. */
  lemma AuthorityBehindUser(user: string, host: string, port: string, tail: string)
    requires forall i :: 0 <= i < |user| ==> !EndsAuthority(user[i]) && user[i] != '%'
    requires forall i :: 0 <= i < |host| ==> !EndsAuthority(host[i]) && !EndsHost(host[i])
    requires forall i :: 0 <= i < |port| ==> '0' <= port[i] <= '9'
    requires tail == [] || EndsAuthority(tail[0])
    ensures Authority(user + "@" + host + ":" + port + tail) == user + "@" + host + ":" + port
    ensures '%' !in Authority(user + "@" + host + ":" + port + tail)
  {
    var hostPort := host + [':'] + port;
    PlainJoin(host, ':', port);
    PlainJoin(user, '@', hostPort);
    NoneOf(host, ':', port, '%');
    NoneOf(user, '@', hostPort, '%');
    assert user + "@" + host + ":" + port == user + ['@'] + hostPort;
    assert user + "@" + host + ":" + port + tail == user + ['@'] + hostPort + tail;
    AuthorityOfHost(user + ['@'] + hostPort, tail);
  }

  lemma NoneOf(a: string, c: char, b: string, d: char)
    requires d !in a && d !in b && c != d
    ensures d !in a + [c] + b
  {
  }

  lemma {:induction false} AfterLastOf(a: string, c: char, b: string)
    requires c !in b
    ensures AfterLast(a + [c] + b, c) == b
  {
    if b != [] {
      var s := a + [c] + b;
      assert s[..|s| - 1] == a + [c] + b[..|b| - 1];
      AfterLastOf(a, c, b[..|b| - 1]);
      assert b[..|b| - 1] + [b[|b| - 1]] == b;
    }
  }

  lemma {:induction false} HostPartOf(a: string, c: char, b: string)
    requires forall i :: 0 <= i < |a| ==> !EndsHost(a[i])
    requires EndsHost(c)
    ensures HostPart(a + [c] + b) == a
  {
    if a != [] {
      var s := a + [c] + b;
      assert s[1..] == a[1..] + [c] + b;
      HostPartOf(a[1..], c, b);
      assert [a[0]] + a[1..] == a;
    }
  }


  // ---------------------------------------------------------------------------
  // The proxy's `pathRewrite`

  /** `req.originalUrl.replace(/^\/(https?:)(\/{1,2})(.+)$/, '')`: the pattern is
      anchored at both ends, so a match removes the whole URL. */
  function PathRewrite(originalUrl: string): (r: string)
    ensures r == "" || r == originalUrl
    ensures ParseProxyPath(originalUrl).Some? ==> r == ""
    ensures ParseProxyPath(originalUrl).None? ==> r == originalUrl
  {
    if ParseProxyPath(originalUrl).Some? then "" else originalUrl
  }

  /** Every URL the pattern admits is rewritten to the empty path; any other
      URL is left as it is. */
  lemma PathRewriteSpec(originalUrl: string)
    ensures (exists m :: Admits(originalUrl, m)) ==> PathRewrite(originalUrl) == ""
    ensures (forall m :: !Admits(originalUrl, m)) ==> PathRewrite(originalUrl) == originalUrl
  {
    if exists m :: Admits(originalUrl, m) {
      var m :| Admits(originalUrl, m);
      ParseComplete(originalUrl, m);
    }
  }

  /** Whenever a target is attached, `pathRewrite` turns the request's own URL
      into the empty string; the path the upstream server is asked for is the
      one inside the target. */
  lemma ForwardedPathIsEmpty(path: string)
    requires Resolve(path).Next? && Resolve(path).target.Some?
    ensures PathRewrite(path) == ""
  {
  }
}
