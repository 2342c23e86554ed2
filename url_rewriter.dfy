/** Re-pointing of the resource references of a parsed HTML document so that
    they go back through the gateway. The document is kept abstract: a
    sequence of elements, each a tag name and an attribute map. */
module UrlRewriter {
  import opened Text
  import TargetResolver

  datatype Element = Element(name: string, attrs: map<string, string>)

  /** `new URL(relative, base).toString()`; `None` where the constructor
      throws. The WHATWG URL parser is not part of this model. */
  type Resolver = (string, string) -> Option<string>

  /** The selector `a[href], link[href], script[src], img[src]`: every element
      it picks carries the attribute the loop reads and writes. */
  predicate Selected(e: Element)
    ensures Selected(e) ==> UrlAttribute(e.name) in e.attrs
  {
    || (e.name == "a" && "href" in e.attrs)
    || (e.name == "link" && "href" in e.attrs)
    || (e.name == "script" && "src" in e.attrs)
    || (e.name == "img" && "src" in e.attrs)
  }

  /** The attribute that carries the reference: `href` for `a` and `link`,
      `src` for everything else. */
  function UrlAttribute(name: string): (attr: string)
    ensures attr == "href" <==> name == "a" || name == "link"
    ensures attr == "href" || attr == "src"
  {
    if name == "a" || name == "link" then "href" else "src"
  }

  /** A value starting with neither `http` nor `//` is taken as relative. */
  predicate IsRelative(v: string) {
    !StartsWith(v, "http") && !StartsWith(v, "//")
  }

  /** A reference that starts with `http` or `//` is kept as written; any
      other is resolved against the target, which may throw (`None`). */
  function Absolutize(v: string, base: string, resolve: Resolver): (r: Option<string>)
    ensures !IsRelative(v) ==> r == Some(v)
    ensures IsRelative(v) ==> r == resolve(v, base)
  {
    if IsRelative(v) then resolve(v, base) else Some(v)
  }

  /** The gateway origin, a slash, and the absolute reference less its
      `http://` or `https://` prefix, if it has one. */
  function ProxiedUrl(proxyUrl: string, absolute: string): (r: string)
    ensures StartsWith(r, proxyUrl + "/")
    ensures StartsWith(absolute, "https://") ==> absolute == "https://" + r[|proxyUrl| + 1..]
    ensures StartsWith(absolute, "http://") ==> absolute == "http://" + r[|proxyUrl| + 1..]
    ensures !StartsWith(absolute, "http://") && !StartsWith(absolute, "https://") ==>
              r[|proxyUrl| + 1..] == absolute
  {
    var path := TargetResolver.StripScheme(absolute);
    DropPrefix(proxyUrl + "/", path);
    assert absolute == absolute[..|absolute| - |path|] + path;
    SchemesExclusive(absolute);
    proxyUrl + "/" + path
  }

  /** No URL starts with both `http://` and `https://`. */
  lemma SchemesExclusive(url: string)
    ensures !(StartsWith(url, "http://") && StartsWith(url, "https://"))
  {
    if StartsWith(url, "http://") {
      assert url[4] == ':';
    }
  }

  /** The work done for one selected element, or the element itself when the
      selector does not pick it. `None`: resolution threw. */
  function RewriteElement(e: Element, proxyUrl: string, base: string, resolve: Resolver): (r: Option<Element>)
    ensures !Selected(e) ==> r == Some(e)
    ensures Selected(e) ==> (r.Some? <==> Absolutize(e.attrs[UrlAttribute(e.name)], base, resolve).Some?)
    ensures r.Some? ==> r.value.name == e.name && r.value.attrs.Keys == e.attrs.Keys
    ensures r.Some? ==> forall a :: a in e.attrs && a != UrlAttribute(e.name) ==> r.value.attrs[a] == e.attrs[a]
  {
    if !Selected(e) then Some(e)
    else
      var attr := UrlAttribute(e.name);
      match Absolutize(e.attrs[attr], base, resolve)
      case None => None
      case Some(absolute) => Some(e.(attrs := e.attrs[attr := ProxiedUrl(proxyUrl, absolute)]))
  }

  /** The value written back: the gateway origin, a slash, and the absolute
      reference with at most one scheme prefix removed. */
  lemma RewrittenValue(e: Element, proxyUrl: string, base: string, resolve: Resolver)
    requires Selected(e)
    requires Absolutize(e.attrs[UrlAttribute(e.name)], base, resolve).Some?
    ensures var absolute := Absolutize(e.attrs[UrlAttribute(e.name)], base, resolve).value;
            var written := RewriteElement(e, proxyUrl, base, resolve).value.attrs[UrlAttribute(e.name)];
            && StartsWith(written, proxyUrl + "/")
            && written == proxyUrl + "/" + TargetResolver.StripScheme(absolute)
            && (!IsRelative(e.attrs[UrlAttribute(e.name)]) ==> absolute == e.attrs[UrlAttribute(e.name)])
  {
    var absolute := Absolutize(e.attrs[UrlAttribute(e.name)], base, resolve).value;
    StartsWithConcat(proxyUrl + "/", TargetResolver.StripScheme(absolute));
  }

  /** A protocol-relative reference keeps both of its slashes:
      `//cdn/x` becomes `<proxy>///cdn/x`. */
  lemma ProtocolRelativeKept(proxyUrl: string, v: string)
    requires StartsWith(v, "//")
    ensures !IsRelative(v)
    ensures ProxiedUrl(proxyUrl, v) == proxyUrl + "/" + v
  {
    assert !StartsWith(v, "http://") by { assert v[0] == '/'; }
    assert !StartsWith(v, "https://") by { assert v[0] == '/'; }
  }

  /** A value such as `httpbin.org/x` starts with `http`, so it is neither
      resolved nor stripped. */
  lemma HttpWordNotResolved(proxyUrl: string, v: string)
    requires StartsWith(v, "http") && |v| > 4 && v[4] != ':' && v[4] != 's'
    ensures !IsRelative(v)
    ensures ProxiedUrl(proxyUrl, v) == proxyUrl + "/" + v
  {
    assert !StartsWith(v, "http://") by { assert v[4] != ':'; }
    assert !StartsWith(v, "https://") by { assert v[4] != 's'; }
  }

  // ---------------------------------------------------------------------------
  // The whole document

  /** The outcome of the `.each` loop: the elements after it, and whether it
      ran to the end. A resolution that throws ends the loop at that element;
      the ones before it are already rewritten, the rest are not. */
  datatype Run = Run(elements: seq<Element>, ok: bool)

  /** The `.each` loop over the selected elements, in document order. It
      neither adds nor drops elements or attributes, and renames nothing. */
  function RewriteAll(es: seq<Element>, proxyUrl: string, base: string, resolve: Resolver): (r: Run)
    ensures |r.elements| == |es|
    ensures forall k :: 0 <= k < |es| ==> r.elements[k].name == es[k].name && r.elements[k].attrs.Keys == es[k].attrs.Keys
  {
    if es == [] then Run([], true)
    else
      match RewriteElement(es[0], proxyUrl, base, resolve)
      case None => Run(es, false)
      case Some(e) =>
        var rest := RewriteAll(es[1..], proxyUrl, base, resolve);
        Run([e] + rest.elements, rest.ok)
  }

  /** When every element goes through, each element is rewritten on its own,
      in place. */
  lemma {:induction false} RewriteAllPointwise(es: seq<Element>, proxyUrl: string, base: string, resolve: Resolver)
    ensures RewriteAll(es, proxyUrl, base, resolve).ok
            <==> forall k :: 0 <= k < |es| ==> RewriteElement(es[k], proxyUrl, base, resolve).Some?
    ensures RewriteAll(es, proxyUrl, base, resolve).ok ==>
              forall k :: 0 <= k < |es| ==>
                RewriteAll(es, proxyUrl, base, resolve).elements[k] == RewriteElement(es[k], proxyUrl, base, resolve).value
  {
    if es != [] {
      RewriteAllPointwise(es[1..], proxyUrl, base, resolve);
      var r := RewriteAll(es, proxyUrl, base, resolve);
      if RewriteElement(es[0], proxyUrl, base, resolve).Some? {
        assert forall k :: 1 <= k < |es| ==> es[1..][k - 1] == es[k];
      }
    }
  }

  /** When the loop stops at the first element whose reference cannot be
      resolved, the elements before it are rewritten and it and all after it
      are as they were. */
  lemma RewriteAllStops(es: seq<Element>, proxyUrl: string, base: string, resolve: Resolver, j: nat)
    requires j < |es|
    requires forall k :: 0 <= k < j ==> RewriteElement(es[k], proxyUrl, base, resolve).Some?
    requires RewriteElement(es[j], proxyUrl, base, resolve).None?
    ensures !RewriteAll(es, proxyUrl, base, resolve).ok
    ensures RewriteAll(es, proxyUrl, base, resolve).elements[j..] == es[j..]
    ensures forall k :: 0 <= k < j ==>
              RewriteAll(es, proxyUrl, base, resolve).elements[k] == RewriteElement(es[k], proxyUrl, base, resolve).value
  {
    RewriteAllSuffix(es, proxyUrl, base, resolve, j);
    RewriteAllPrefix(es, proxyUrl, base, resolve, j);
  }

  lemma {:induction false} RewriteAllSuffix(es: seq<Element>, proxyUrl: string, base: string, resolve: Resolver, j: nat)
    requires j < |es|
    requires forall k :: 0 <= k < j ==> RewriteElement(es[k], proxyUrl, base, resolve).Some?
    requires RewriteElement(es[j], proxyUrl, base, resolve).None?
    ensures !RewriteAll(es, proxyUrl, base, resolve).ok
    ensures RewriteAll(es, proxyUrl, base, resolve).elements[j..] == es[j..]
  {
    if j > 0 {
      var tail := es[1..];
      assert forall k :: 0 <= k < j - 1 ==> tail[k] == es[k + 1];
      RewriteAllSuffix(tail, proxyUrl, base, resolve, j - 1);
      var rest := RewriteAll(tail, proxyUrl, base, resolve);
      assert RewriteAll(es, proxyUrl, base, resolve).elements[1..] == rest.elements;
      assert tail[j - 1..] == es[j..];
    }
  }

  /** Elements before the first failure are rewritten each on its own. */
  lemma {:induction false} RewriteAllPrefix(es: seq<Element>, proxyUrl: string, base: string, resolve: Resolver, j: nat)
    requires j <= |es|
    requires forall k :: 0 <= k < j ==> RewriteElement(es[k], proxyUrl, base, resolve).Some?
    ensures forall k :: 0 <= k < j ==>
              RewriteAll(es, proxyUrl, base, resolve).elements[k] == RewriteElement(es[k], proxyUrl, base, resolve).value
  {
    if j > 0 {
      var tail := es[1..];
      assert forall k :: 0 <= k < j - 1 ==> tail[k] == es[k + 1];
      RewriteAllPrefix(tail, proxyUrl, base, resolve, j - 1);
      assert RewriteAll(es, proxyUrl, base, resolve).elements[1..] == RewriteAll(tail, proxyUrl, base, resolve).elements;
    }
  }

  /** Splitting the run after `i` elements that all went through. */
  lemma {:induction false} RewriteAllSplit(es: seq<Element>, proxyUrl: string, base: string, resolve: Resolver, i: nat)
    requires i < |es|
    requires RewriteElement(es[i], proxyUrl, base, resolve).Some?
    ensures RewriteAll(es[i..], proxyUrl, base, resolve)
            == Run([RewriteElement(es[i], proxyUrl, base, resolve).value] + RewriteAll(es[i + 1..], proxyUrl, base, resolve).elements,
                   RewriteAll(es[i + 1..], proxyUrl, base, resolve).ok)
  {
    assert es[i..][0] == es[i];
    assert es[i..][1..] == es[i + 1..];
  }

  /** A rewritten link names the target without its scheme, so the path the
      gateway then receives is not a proxy request: `<proxy>/example.com/x`
      does not reach `https://example.com/x`. */
  lemma RewrittenLinkIsNotRouted(rest: string)
    requires !StartsWith(rest, "http:") && !StartsWith(rest, "https:")
    ensures TargetResolver.ParseProxyPath("/" + TargetResolver.StripScheme("https://" + rest)).None?
    ensures TargetResolver.ParseProxyPath("/" + TargetResolver.StripScheme("http://" + rest)).None?
  {
    StartsWithConcat("https://", rest);
    assert ("https://" + rest)[8..] == rest;
    StartsWithConcat("http://", rest);
    assert !StartsWith("http://" + rest, "https://") by { assert ("http://" + rest)[4] == ':'; }
    assert ("http://" + rest)[7..] == rest;
    StartsWithCons('/', rest, "https:");
    StartsWithCons('/', rest, "http:");
    assert "/" + rest == ['/'] + rest;
    assert "/https:" == ['/'] + "https:";
    assert "/http:" == ['/'] + "http:";
  }

  /** The loop of `rewriteUrls` after `i` elements: they are rewritten, the
      rest are as they were, and together with the run over the rest they
      make up the run over the whole document. */
  ghost predicate Progress(original: seq<Element>, elements: seq<Element>, i: int, whole: Run,
                           proxyUrl: string, base: string, resolve: Resolver) {
    && 0 <= i <= |elements| == |original|
    && elements[i..] == original[i..]
    && whole.elements == elements[..i] + RewriteAll(original[i..], proxyUrl, base, resolve).elements
    && whole.ok == RewriteAll(original[i..], proxyUrl, base, resolve).ok
  }

  lemma ProgressStep(original: seq<Element>, elements: seq<Element>, i: int, whole: Run,
                     proxyUrl: string, base: string, resolve: Resolver)
    requires Progress(original, elements, i, whole, proxyUrl, base, resolve) && i < |elements|
    requires RewriteElement(elements[i], proxyUrl, base, resolve).Some?
    ensures Progress(original, elements[i := RewriteElement(elements[i], proxyUrl, base, resolve).value], i + 1,
                     whole, proxyUrl, base, resolve)
  {
    assert original[i..][0] == elements[i];
    RewriteAllSplit(original, proxyUrl, base, resolve, i);
    UpdatePrefix(elements, i, RewriteElement(elements[i], proxyUrl, base, resolve).value,
                 RewriteAll(original[i + 1..], proxyUrl, base, resolve).elements);
  }

  lemma ProgressStops(original: seq<Element>, elements: seq<Element>, i: int, whole: Run,
                      proxyUrl: string, base: string, resolve: Resolver)
    requires Progress(original, elements, i, whole, proxyUrl, base, resolve) && i < |elements|
    requires RewriteElement(elements[i], proxyUrl, base, resolve).None?
    ensures !whole.ok && whole.elements == elements
  {
    assert original[i..][0] == elements[i];
    SplitAt(elements, i);
  }

  lemma ProgressEnds(original: seq<Element>, elements: seq<Element>, i: int, whole: Run,
                     proxyUrl: string, base: string, resolve: Resolver)
    requires Progress(original, elements, i, whole, proxyUrl, base, resolve) && i == |elements|
    ensures whole.ok && whole.elements == elements
  {
    assert original[i..] == [];
    SplitAt(elements, i);
  }

  /** The parsed document whose elements `rewriteUrls` edits in place. */
  class Document {
    var elements: seq<Element>

    constructor (elements: seq<Element>)
      ensures this.elements == elements
    {
      this.elements := elements;
    }

    /** The `.each` loop of `rewriteUrls`. `ok == false`: a resolution threw
        and the loop was left at that element. */
    method RewriteUrls(proxyUrl: string, originalUrl: string, resolve: Resolver) returns (ok: bool)
      modifies this
      ensures ok == RewriteAll(old(elements), proxyUrl, originalUrl, resolve).ok
      ensures elements == RewriteAll(old(elements), proxyUrl, originalUrl, resolve).elements
    {
      ghost var whole := RewriteAll(elements, proxyUrl, originalUrl, resolve);
      var original := elements;
      var es := elements;
      var i := 0;
      assert original[0..] == original;
      while i < |es|
        invariant Progress(original, es, i, whole, proxyUrl, originalUrl, resolve)
      {
        var next := RewriteElement(es[i], proxyUrl, originalUrl, resolve);
        if next.None? {
          ProgressStops(original, es, i, whole, proxyUrl, originalUrl, resolve);
          elements := es;
          return false;
        }
        ProgressStep(original, es, i, whole, proxyUrl, originalUrl, resolve);
        es := es[i := next.value];
        i := i + 1;
      }
      ProgressEnds(original, es, i, whole, proxyUrl, originalUrl, resolve);
      elements := es;
      return true;
    }
  }
}
