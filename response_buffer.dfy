/** Full buffering of the upstream body and the content-type dispatch that
    runs once it is complete. The response's `write` is replaced by one that
    only collects chunks; its `end` transforms the whole body and only then
    writes it and ends the response. */
module ResponseBuffer {
  import opened Text
  import HeadTags
  import UrlRewriter
  import TargetResolver

  /** The closed set of transforms, chosen once from `content-type`. */
  datatype ContentKind = Html | Image | Passthrough

  /** `res.get('content-type')`; `None` when the header is not set. */
  function ContentType(headers: map<string, string>): Option<string> {
    if "content-type" in headers then Some(headers["content-type"]) else None
  }

  /** The prefix tests of the dispatch, in their order: `text/html` first,
      then `image/`; a missing or empty header passes through. */
  function Classify(contentType: Option<string>): (k: ContentKind)
    ensures k == Html <==> contentType.Some? && StartsWith(contentType.value, "text/html")
    ensures k == Image <==> contentType.Some? && !StartsWith(contentType.value, "text/html")
                            && StartsWith(contentType.value, "image/")
    ensures contentType == None || contentType == Some("") ==> k == Passthrough
  {
    if contentType.Some? && StartsWith(contentType.value, "text/html") then Html
    else if contentType.Some? && StartsWith(contentType.value, "image/") then Image
    else Passthrough
  }

  const WebpQuality: nat := 75

  /** The libraries the transforms call, which are not part of this model. */
  datatype Libraries = Libraries(
    decode: seq<byte> -> string,                          // buffer.toString()
    parse: string -> seq<UrlRewriter.Element>,            // cheerio.load(html)
    serialize: seq<UrlRewriter.Element> -> string,        // $.html()
    resolve: UrlRewriter.Resolver,                        // new URL(relative, base)
    webp: (seq<byte>, nat) -> Option<seq<byte>>           // sharp(buffer).webp({ quality }).toBuffer()
  )

  /** The two interceptors of `index.js`: the one inside
      `modifyResponseContent` also rewrites URLs and transcodes images, but
      nothing in the program calls `modifyResponseContent`, so it never runs;
      the trailing middleware only injects the two head tags. */
  datatype Interceptor = ModifyResponseContent | TrailingMiddleware

  /** What `end` hands on: the body written before the response ends and the
      response headers at that moment; or `Abandoned` when URL rewriting threw,
      so that nothing is written and the response is never ended. That `end`
      is `async`, so the throw is an unhandled promise rejection, which ends
      the worker process on Node.js 15 and later. */
  datatype Emitted = Emitted(body: seq<byte>, headers: map<string, string>) | Abandoned

  /** The text the HTML branch writes, or `None` if URL rewriting threw. Both
      interceptors inject the tags first; only URL rewriting can fail, and
      the rewritten page is the serialised result of the whole loop. */
  function HtmlText(interceptor: Interceptor, text: string, baseUrl: string, target: string, libs: Libraries): (r: Option<string>)
    ensures interceptor == TrailingMiddleware ==> r.Some?
    ensures var elements := libs.parse(HeadTags.InjectFaviconTag(HeadTags.InjectBaseTag(text, baseUrl), target));
            interceptor == ModifyResponseContent ==>
              && (r.Some? <==> forall k :: 0 <= k < |elements| ==> UrlRewriter.RewriteElement(elements[k], baseUrl, target, libs.resolve).Some?)
              && (r.Some? ==> r.value == libs.serialize(UrlRewriter.RewriteAll(elements, baseUrl, target, libs.resolve).elements))
  {
    var injected := HeadTags.InjectFaviconTag(HeadTags.InjectBaseTag(text, baseUrl), target);
    match interceptor
    case TrailingMiddleware => Some(injected)
    case ModifyResponseContent =>
      var run := UrlRewriter.RewriteAll(libs.parse(injected), baseUrl, target, libs.resolve);
      UrlRewriter.RewriteAllPointwise(libs.parse(injected), baseUrl, target, libs.resolve);
      if run.ok then Some(libs.serialize(run.elements)) else None
  }

  /** The effect of the replaced `end`, given the response headers and the
      collected body. */
  function Render(interceptor: Interceptor, headers: map<string, string>, buffer: seq<byte>,
                  baseUrl: string, target: string, libs: Libraries): (r: Emitted)
    ensures Classify(ContentType(headers)) == Passthrough ==> r == Emitted(buffer, headers)
    ensures Classify(ContentType(headers)) == Image && interceptor == TrailingMiddleware ==> r == Emitted(buffer, headers)
    ensures Classify(ContentType(headers)) == Image && interceptor == ModifyResponseContent ==>
              if libs.webp(buffer, WebpQuality).None? then r == Emitted(buffer, headers)
              else r.Emitted? && r.body == libs.webp(buffer, WebpQuality).value
                   && r.headers == headers["content-type" := "image/webp"]["content-length" := Decimal(|r.body|)]
    ensures r.Abandoned? <==> Classify(ContentType(headers)) == Html
                              && HtmlText(interceptor, libs.decode(buffer), baseUrl, target, libs).None?
    ensures Classify(ContentType(headers)) == Html && r.Emitted? ==>
              r.headers == headers["content-length" := Decimal(|r.body|)]
              && r.body == Utf8(HtmlText(interceptor, libs.decode(buffer), baseUrl, target, libs).value)
  {
    match Classify(ContentType(headers))
    case Html =>
      (match HtmlText(interceptor, libs.decode(buffer), baseUrl, target, libs)
       case None => Abandoned
       case Some(text) =>
         var bytes := Utf8(text);
         Emitted(bytes, headers["content-length" := Decimal(|bytes|)]))
    case Image =>
      (match interceptor
       case TrailingMiddleware => Emitted(buffer, headers)
       case ModifyResponseContent =>
         match libs.webp(buffer, WebpQuality)
         case None => Emitted(buffer, headers)
         case Some(webp) => Emitted(webp, headers["content-type" := "image/webp"]["content-length" := Decimal(|webp|)]))
    case Passthrough => Emitted(buffer, headers)
  }

  /** The emitted headers announce, as decimal text, the byte length of the
      emitted body. */
  predicate LengthAnnounced(r: Emitted) {
    && r.Emitted?
    && "content-length" in r.headers
    && (forall i :: 0 <= i < |r.headers["content-length"]| ==> '0' <= r.headers["content-length"][i] <= '9')
    && ParseDecimal(r.headers["content-length"]) == |r.body|
  }

  /** Wherever `content-length` is set, it reads back as the byte length of
      the body that is written; everywhere else the body is the buffer itself. */
  lemma ContentLengthMatchesBody(interceptor: Interceptor, headers: map<string, string>, buffer: seq<byte>,
                                 baseUrl: string, target: string, libs: Libraries)
    requires Render(interceptor, headers, buffer, baseUrl, target, libs).Emitted?
    ensures var r := Render(interceptor, headers, buffer, baseUrl, target, libs);
            || r == Emitted(buffer, headers)
            || LengthAnnounced(r)
  {
    var r := Render(interceptor, headers, buffer, baseUrl, target, libs);
    if r != Emitted(buffer, headers) {
      var kind := Classify(ContentType(headers));
      Announced(r.body, if kind == Html then headers else headers["content-type" := "image/webp"]);
    }
  }

  /** A `content-length` set to the decimal byte count announces the body. */
  lemma Announced(body: seq<byte>, headers: map<string, string>)
    ensures LengthAnnounced(Emitted(body, headers["content-length" := Decimal(|body|)]))
  {
    DecimalRoundTrip(|body|);
  }

  /** In the trailing middleware, a page with a head tag grows by exactly the
      UTF-8 length of the two tags, and the announced length says so. */
  lemma HtmlGrowsByTags(headers: map<string, string>, buffer: seq<byte>, baseUrl: string,
                        target: string, libs: Libraries, i: int, e: int)
    requires Classify(ContentType(headers)) == Html
    requires HeadTags.FirstHead(libs.decode(buffer), i, e)
    ensures var r := Render(TrailingMiddleware, headers, buffer, baseUrl, target, libs);
            var text := libs.decode(buffer);
            && r.Emitted?
            && |r.body| == |Utf8(text)| + |Utf8(HeadTags.FaviconTag(TargetResolver.Hostname(target)))|
                           + |Utf8(HeadTags.BaseTag(baseUrl))|
            && LengthAnnounced(r)
  {
    var text := libs.decode(buffer);
    TrailingText(text, baseUrl, target, libs, i, e);
    SplitAt(text, e);
    var favicon, base := HeadTags.FaviconTag(TargetResolver.Hostname(target)), HeadTags.BaseTag(baseUrl);
    RenderedHtml(TrailingMiddleware, headers, buffer, baseUrl, target, libs, text[..e] + favicon + base + text[e..]);
    SplicedLength(headers, text[..e], favicon, base, text[e..]);
  }

  /** The trailing middleware's HTML text is the page with both tags after
      its head tag. */
  lemma TrailingText(text: string, baseUrl: string, target: string, libs: Libraries, i: int, e: int)
    requires HeadTags.FirstHead(text, i, e)
    ensures HtmlText(TrailingMiddleware, text, baseUrl, target, libs)
            == Some(text[..e] + HeadTags.FaviconTag(TargetResolver.Hostname(target)) + HeadTags.BaseTag(baseUrl) + text[e..])
  {
    HeadTags.InjectionOrder(text, baseUrl, target, i, e);
  }

  /** The step of HtmlGrowsByTags that does not depend on what is spliced in:
      a page with `x` and `y` spliced in is announced with its byte length. */
  lemma SplicedLength(headers: map<string, string>, pre: string, x: string, y: string, post: string)
    ensures var body := Utf8(pre + x + y + post);
            var r := Emitted(body, headers["content-length" := Decimal(|body|)]);
            && |r.body| == |Utf8(pre + post)| + |Utf8(x)| + |Utf8(y)|
            && LengthAnnounced(r)
  {
    Utf8Splice(pre, x, y, post);
    DecimalRoundTrip(|Utf8(pre + x + y + post)|);
  }

  /** An HTML page that renders to `text` is written as its UTF-8 bytes with
      their count as `content-length`. */
  lemma RenderedHtml(interceptor: Interceptor, headers: map<string, string>, buffer: seq<byte>,
                     baseUrl: string, target: string, libs: Libraries, text: string)
    requires Classify(ContentType(headers)) == Html
    requires HtmlText(interceptor, libs.decode(buffer), baseUrl, target, libs) == Some(text)
    ensures Render(interceptor, headers, buffer, baseUrl, target, libs)
            == Emitted(Utf8(text), headers["content-length" := Decimal(|Utf8(text)|)])
  {
  }

  /** A response whose upstream body is being intercepted. */
  class InterceptedResponse {
    var headers: map<string, string>
    var buffer: seq<byte>
    ghost var chunks: seq<seq<byte>>
    /** What reached the original `write`, in order. */
    var written: seq<seq<byte>>
    var ended: bool

    ghost predicate Valid()
      reads this
    {
      buffer == Concat(chunks)
    }

    constructor (headers: map<string, string>)
      ensures Valid() && this.headers == headers
      ensures chunks == [] && buffer == [] && written == [] && !ended
    {
      this.headers := headers;
      buffer := [];
      chunks := [];
      written := [];
      ended := false;
    }

    /** The replaced `write`: the chunk is appended to the buffer and nothing
        is sent. */
    method Write(chunk: seq<byte>)
      requires Valid()
      modifies this
      ensures Valid()
      ensures chunks == old(chunks) + [chunk] && buffer == old(buffer) + chunk
      ensures headers == old(headers) && written == old(written) && ended == old(ended)
    {
      buffer := buffer + chunk;
      chunks := chunks + [chunk];
      assert chunks[..|chunks| - 1] == old(chunks);
    }

    /** The replaced `end`: the body is transformed as a whole, then written,
        then the response is ended. */
    method End(interceptor: Interceptor, baseUrl: string, target: string, libs: Libraries)
      requires Valid()
      modifies this
      ensures Valid() && buffer == old(buffer) && chunks == old(chunks)
      ensures var r := Render(interceptor, old(headers), old(buffer), baseUrl, target, libs);
              if r.Emitted? then headers == r.headers && written == old(written) + [r.body] && ended
              else headers == old(headers) && written == old(written) && ended == old(ended)
    {
      var r := Transform(interceptor, headers, buffer, baseUrl, target, libs);
      if r.Emitted? {
        headers := r.headers;
        written := written + [r.body];
        ended := true;
      }
    }
  }

  /** The body of the replaced `end` up to the point where it writes, step by
      step as the handler runs it; `Render` is its specification. */
  method Transform(interceptor: Interceptor, headers: map<string, string>, buffer: seq<byte>,
                   baseUrl: string, target: string, libs: Libraries) returns (r: Emitted)
    ensures r == Render(interceptor, headers, buffer, baseUrl, target, libs)
  {
    var kind := Classify(ContentType(headers));
    if kind == Html {
      var modified := HeadTags.InjectBaseTag(libs.decode(buffer), baseUrl);
      modified := HeadTags.InjectFaviconTag(modified, target);
      if interceptor == ModifyResponseContent {
        var document := new UrlRewriter.Document(libs.parse(modified));
        var ok := document.RewriteUrls(baseUrl, target, libs.resolve);
        if !ok {
          return Abandoned;
        }
        modified := libs.serialize(document.elements);
      }
      var bytes := Utf8(modified);
      return Emitted(bytes, headers["content-length" := Decimal(|bytes|)]);
    } else if kind == Image && interceptor == ModifyResponseContent {
      var webp := libs.webp(buffer, WebpQuality);
      if webp.Some? {
        var converted := headers["content-type" := "image/webp"];
        return Emitted(webp.value, converted["content-length" := Decimal(|webp.value|)]);
      }
      return Emitted(buffer, headers);
    }
    return Emitted(buffer, headers);
  }

  /** Chunk `k` sits in the collected body right after the chunks written
      before it. */
  lemma ChunkInPlace(chunks: seq<seq<byte>>, k: nat)
    requires k < |chunks|
    ensures var offset := |Concat(chunks[..k])|;
            && offset + |chunks[k]| <= |Concat(chunks)|
            && Concat(chunks)[offset..offset + |chunks[k]|] == chunks[k]
  {
    ConcatLength(chunks, k + 1);
    assert chunks[..k + 1][..k] == chunks[..k];
    assert Concat(chunks[..k + 1]) == Concat(chunks[..k]) + chunks[k];
  }
}
