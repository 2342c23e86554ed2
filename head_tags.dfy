/** Insertion of the `<base>` and favicon `<link>` tags right after the first
    `<head...>` tag of an HTML text, as `html.replace(/<head[^>]*>/i, '$&' + tag)`
    does it. */
module HeadTags {
  import opened Text
  import TargetResolver

  /** `<head` in any ASCII letter case begins at `i`. */
  predicate OpensHead(s: string, i: int) {
    0 <= i && i + 5 <= |s| && Lower(s[i..i + 5]) == "<head"
  }

  /** `/<head[^>]*>/i` matches at `i`: the greedy `[^>]*` runs to the next `>`,
      so a match exists exactly when some `>` follows the name. */
  predicate MatchesAt(s: string, i: int) {
    OpensHead(s, i) && '>' in s[i + 5..]
  }

  /** The match that starts at `i` ends at `e`, one past the first `>` after
      the name. */
  predicate ClosesAt(s: string, i: int, e: int) {
    0 <= i && i + 5 < e <= |s| && s[e - 1] == '>'
    && forall k :: i + 5 <= k < e - 1 ==> s[k] != '>'
  }

  /** The leftmost match of the pattern is `s[i..e]`. */
  predicate FirstHead(s: string, i: int, e: int) {
    MatchesAt(s, i) && ClosesAt(s, i, e) && forall k :: 0 <= k < i ==> !MatchesAt(s, k)
  }

  datatype Span = Span(start: nat, end: nat)

  /** The first `>` at or after `from`. */
  function FindGt(s: string, from: nat): (r: Option<nat>)
    requires from <= |s|
    ensures r.Some? ==> from <= r.value < |s| && s[r.value] == '>'
                        && forall k :: from <= k < r.value ==> s[k] != '>'
    ensures r.None? ==> '>' !in s[from..]
    decreases |s| - from
  {
    if from == |s| then None
    else if s[from] == '>' then Some(from)
    else
      var r := FindGt(s, from + 1);
      assert s[from..] == [s[from]] + s[from + 1..];
      r
  }

  /** The regular expression engine's scan: try each start position from
      `from` on, and take the first one at which the pattern matches. */
  function FindHeadFrom(s: string, from: nat): (r: Option<Span>)
    ensures r.Some? ==> from <= r.value.start && MatchesAt(s, r.value.start)
                        && ClosesAt(s, r.value.start, r.value.end)
                        && forall k :: from <= k < r.value.start ==> !MatchesAt(s, k)
    ensures r.None? ==> forall k :: from <= k ==> !MatchesAt(s, k)
    decreases |s| - from
  {
    if from + 5 > |s| then None
    else if OpensHead(s, from) && FindGt(s, from + 5).Some? then
      var g := FindGt(s, from + 5).value;
      assert s[from + 5..][g - (from + 5)] == '>';
      Some(Span(from, g + 1))
    else
      FindHeadFrom(s, from + 1)
  }

  /** `s.search(/<head[^>]*>/i)` with the end of the match: the leftmost
      match, or none when the pattern matches nowhere. */
  function FindHead(s: string): (r: Option<Span>)
    ensures r.Some? ==> FirstHead(s, r.value.start, r.value.end)
    ensures r.None? <==> forall k :: !MatchesAt(s, k)
  {
    FindHeadFrom(s, 0)
  }

  /** Where a match starts, it ends at one place only. */
  lemma ClosesUnique(s: string, i: int, e1: int, e2: int)
    requires ClosesAt(s, i, e1) && ClosesAt(s, i, e2)
    ensures e1 == e2
  {
    assert s[e1 - 1] == '>' && s[e2 - 1] == '>';
  }

  /** The scan finds exactly the leftmost match. */
  lemma FindHeadIsFirst(s: string, i: int, e: int)
    requires FirstHead(s, i, e)
    ensures FindHead(s) == Some(Span(i, e))
  {
    var r := FindHead(s);
    assert r.Some?;
    ClosesUnique(s, i, r.value.end, e);
  }

  /** Text after the end of the first match does not move the match. */
  lemma FirstHeadKept(s: string, i: int, e: int, t: string)
    requires FirstHead(s, i, e)
    ensures FirstHead(s[..e] + t, i, e)
  {
    var s' := s[..e] + t;
    assert s'[..e] == s[..e];
    assert s'[i..i + 5] == s[i..i + 5];
    assert s'[e - 1] == '>';
    assert s'[i + 5..][e - 1 - (i + 5)] == '>';
    forall k | 0 <= k < i
      ensures !MatchesAt(s', k)
    {
      assert !MatchesAt(s, k);
      assert s'[k..k + 5] == s[k..k + 5];
      assert OpensHead(s', k) == OpensHead(s, k);
      assert '>' in s[k + 5..] by { assert s[k + 5..][e - 1 - (k + 5)] == '>'; }
    }
  }

  // ---------------------------------------------------------------------------
  // Injection

  /** `html.replace(/<head[^>]*>/i, '$&' + tag)` for a tag without `$`
      replacement patterns: with a `<head...>` tag, the new tag follows the
      first one and nothing else changes, so later `<head...>` tags are left
      alone; without one the text comes back unchanged. */
  function InjectAfterHead(html: string, tag: string): (r: string)
    ensures forall i, e {:trigger FirstHead(html, i, e)} :: FirstHead(html, i, e) ==> r == html[..e] + tag + html[e..]
    ensures (forall k :: !MatchesAt(html, k)) ==> r == html
    ensures |r| == |html| || |r| == |html| + |tag|
  {
    match FindHead(html)
    case None => html
    case Some(sp) =>
      forall i, e | FirstHead(html, i, e) ensures e == sp.end {
        FindHeadIsFirst(html, i, e);
      }
      html[..sp.end] + tag + html[sp.end..]
  }

  /** Any tag whose name merely begins with `head`, such as `<header>`, is
      taken for the head tag when it comes first. */
  lemma HeadPrefixMatches(b: string, c: string)
    requires '>' !in b
    ensures FindHead("<head" + b + ">" + c) == Some(Span(0, |b| + 6))
  {
    var s := "<head" + b + ">" + c;
    assert s[0..5] == "<head";
    assert s[|b| + 5] == '>';
    assert s[5..][|b|] == '>';
    forall k | 5 <= k < |b| + 5 ensures s[k] != '>' {
      assert s[k] == b[k - 5];
    }
    FindHeadIsFirst(s, 0, |b| + 6);
  }

  // ---------------------------------------------------------------------------
  // The two tags

  function BaseTag(baseUrl: string): string {
    "<base href=\"" + baseUrl + "\">"
  }

  const FaviconService: string := "https://www.google.com/s2/favicons?domain="

  function FaviconTag(hostname: string): string {
    "<link rel=\"shortcut icon\" type=\"image/x-icon\" href=\"" + FaviconService
      + EncodeUriComponent(hostname) + "\">"
  }

  /** The `<base>` tag goes right after the first head tag. */
  function InjectBaseTag(html: string, baseUrl: string): (r: string)
    ensures forall i, e {:trigger FirstHead(html, i, e)} :: FirstHead(html, i, e) ==> r == html[..e] + BaseTag(baseUrl) + html[e..]
    ensures (forall k :: !MatchesAt(html, k)) ==> r == html
  {
    InjectAfterHead(html, BaseTag(baseUrl))
  }

  /** The favicon link, which asks the favicon service for the target's host
      name, goes right after the first head tag. */
  function InjectFaviconTag(html: string, target: string): (r: string)
    ensures forall i, e {:trigger FirstHead(html, i, e)} :: FirstHead(html, i, e) ==>
              r == html[..e] + FaviconTag(TargetResolver.Hostname(target)) + html[e..]
    ensures (forall k :: !MatchesAt(html, k)) ==> r == html
  {
    InjectAfterHead(html, FaviconTag(TargetResolver.Hostname(target)))
  }

  /** Base injection followed by favicon injection, as the HTML branch runs
      them: the head tag is followed by the favicon link, then the base tag,
      then the original remainder. */
  lemma InjectionOrder(html: string, baseUrl: string, target: string, i: int, e: int)
    requires FirstHead(html, i, e)
    ensures InjectFaviconTag(InjectBaseTag(html, baseUrl), target)
            == html[..e] + FaviconTag(TargetResolver.Hostname(target)) + BaseTag(baseUrl) + html[e..]
  {
    InjectTwice(html, BaseTag(baseUrl), FaviconTag(TargetResolver.Hostname(target)), i, e);
  }

  /** A second injection lands between the head tag and the first one. */
  lemma InjectTwice(html: string, first: string, second: string, i: int, e: int)
    requires FirstHead(html, i, e)
    ensures InjectAfterHead(InjectAfterHead(html, first), second) == html[..e] + second + first + html[e..]
  {
    var pre, post := html[..e], html[e..];
    var s1 := InjectAfterHead(html, first);
    assert s1 == pre + first + post;
    assert s1 == pre + (first + post);
    Splice(pre, first, post);
    FirstHeadKept(html, i, e, first + post);
    assert FirstHead(s1, i, e);
    assert InjectAfterHead(s1, second) == pre + second + (first + post);
    Regroup(pre, second, first, post);
  }

  /** Without a head tag neither injection changes anything. */
  lemma InjectionOrderNoHead(html: string, baseUrl: string, target: string)
    requires forall k :: !MatchesAt(html, k)
    ensures InjectFaviconTag(InjectBaseTag(html, baseUrl), target) == html
  {
  }

  // ---------------------------------------------------------------------------
  // encodeURIComponent

  /** Characters `encodeURIComponent` leaves as they are. */
  predicate Unreserved(c: char) {
    ('A' <= c <= 'Z') || ('a' <= c <= 'z') || ('0' <= c <= '9')
    || c == '-' || c == '_' || c == '.' || c == '!' || c == '~'
    || c == '*' || c == '\'' || c == '(' || c == ')'
  }

  const HexDigits: string := "0123456789ABCDEF"

  function PercentByte(b: byte): (r: string)
    ensures |r| == 3 && r[0] == '%' && Unreserved(r[1]) && Unreserved(r[2])
  {
    ['%', HexDigits[b / 16], HexDigits[b % 16]]
  }

  function PercentBytes(bs: seq<byte>): (r: string)
    ensures |r| == 3 * |bs|
    ensures forall i :: 0 <= i < |r| ==> Unreserved(r[i]) || r[i] == '%'
  {
    if bs == [] then [] else PercentByte(bs[0]) + PercentBytes(bs[1..])
  }

  function EncodeChar(c: char): (r: string)
    ensures Unreserved(c) ==> r == [c]
    ensures !Unreserved(c) && c as int < 0x80 ==> r == PercentByte(c as int)
  {
    if Unreserved(c) then [c] else PercentBytes(Utf8Char(c))
  }

  /** `encodeURIComponent(s)`: the result is made of unreserved characters and
      `%` only, so it cannot close the quoted attribute or the tag it is put
      in, and holds no `$` replacement pattern. */
  function EncodeUriComponent(s: string): (r: string)
    ensures forall i :: 0 <= i < |r| ==> Unreserved(r[i]) || r[i] == '%'
    ensures |s| <= |r|
  {
    if s == [] then []
    else
      var r := EncodeChar(s[0]) + EncodeUriComponent(s[1..]);
      assert forall i :: 0 <= i < |EncodeChar(s[0])| ==> Unreserved(r[i]) || r[i] == '%';
      r
  }

  function HexValue(c: char): int {
    if '0' <= c <= '9' then c as int - '0' as int
    else if 'A' <= c <= 'F' then c as int - 'A' as int + 10
    else if 'a' <= c <= 'f' then c as int - 'a' as int + 10
    else -1
  }

  /** Percent-decoding of single-byte escapes, enough to read back an encoded
      ASCII string. */
  function DecodeAscii(s: string): string {
    if |s| >= 3 && s[0] == '%' && HexValue(s[1]) >= 0 && HexValue(s[2]) >= 0 then
      [(HexValue(s[1]) * 16 + HexValue(s[2])) as char] + DecodeAscii(s[3..])
    else if s == [] then []
    else [s[0]] + DecodeAscii(s[1..])
  }

  lemma HexDigitValue(d: nat)
    requires d < 16
    ensures HexValue(HexDigits[d]) == d
  {
  }

  /** For ASCII input, decoding undoes `encodeURIComponent`. */
  lemma {:induction false} EncodeAsciiRoundTrip(s: string)
    requires forall i :: 0 <= i < |s| ==> s[i] as int < 0x80
    ensures DecodeAscii(EncodeUriComponent(s)) == s
  {
    if s != [] {
      EncodeAsciiRoundTrip(s[1..]);
      DecodeEncodedChar(s[0], EncodeUriComponent(s[1..]));
      assert [s[0]] + s[1..] == s;
    }
  }

  lemma DecodeEncodedChar(c: char, rest: string)
    requires c as int < 0x80
    ensures DecodeAscii(EncodeChar(c) + rest) == [c] + DecodeAscii(rest)
  {
    if Unreserved(c) {
      assert ([c] + rest)[1..] == rest;
    } else {
      DecodePercent(c as int, rest);
    }
  }

  /** A `%XX` escape decodes to the byte it encodes. */
  lemma DecodePercent(b: byte, rest: string)
    ensures DecodeAscii(PercentByte(b) + rest) == [b as char] + DecodeAscii(rest)
  {
    HexDigitValue(b / 16);
    HexDigitValue(b % 16);
    var t := PercentByte(b) + rest;
    assert t[0] == '%' && t[1] == HexDigits[b / 16] && t[2] == HexDigits[b % 16];
    assert t[3..] == rest;
  }
}
