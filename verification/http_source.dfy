/** `Sources::Http`: a read-only source at an http or https URI, fetched on
    demand and cached per request method. */
module HttpSource {
  import opened Outcomes
  import opened Text
  import opened Uris
  import opened Metadata
  import opened HttpFetch
  import opened Environment
  import opened Sources

  /** `Http.new(uri, metadata)`, which `load` and `reload` call: nothing is
      fetched, the cache starts empty. */
  function New(u: Uri, m: Meta): Source
  {
    Make(HttpKind(u, EmptyCache), m)
  }

  /** The message of a MissingSource. */
  function Reason(e: Error): string
  {
    if e.MissingSource? then e.reason else ""
  }

  /** `Http#valid?`: the HEAD response is fetched (and cached); a failure
      becomes false with its message recorded, which raises only on a frozen
      source. */
  function Valid(env: Env, src: Source): (r: Validation)
    requires src.kind.HttpKind?
    ensures !src.frozen ==> r.outcome.Ok?
    ensures r.source.kind.HttpKind? && r.source.kind.uri == src.kind.uri
    ensures !src.frozen && src.kind.cache == EmptyCache ==>
      (r.outcome == Ok(true) <==> Download(env.web, src.kind.uri, Head, MaxRedirects).Ok?)
    ensures !src.frozen && src.kind.cache == EmptyCache && r.outcome == Ok(false) ==>
      r.source.error == Message(HttpFetch.Message(Download(env.web, src.kind.uri, Head, MaxRedirects).error))
  {
    var (res, c1) := Fetch(env.web, src.kind.uri, src.kind.cache, src.frozen, Head);
    var s1 := src.(kind := HttpKind(src.kind.uri, c1));
    match res
    case Ok(resp) => Validation(Ok(resp.Some?), s1)
    case Err(e) =>
      if src.frozen then Validation(Err(FrozenObject), s1)
      else Validation(Ok(false), s1.(error := Message(Reason(e))))
  }

  /** Flags and names: persistent and read-only, published at its own URI,
      named after the last path segment. */
  lemma Accessors(env: Env, w: World, u: Uri, m: Meta)
    ensures UriOf(New(u, m)) == Ok(Some(u))
    ensures PersistentOf(New(u, m)) == Ok(true)
    ensures ReadonlyOf(New(u, m)) == Ok(true)
    ensures PublicUriOf(env, w, New(u, m)) == Ok(Some(u))
    ensures FilenameOf(env, w, New(u, m)) == Ok(SegmentValue(LastSegment(u.path)))
  {
  }

  /** The digest is the decoded Content-MD5 header of the HEAD response when
      there is one, and otherwise the MD5 of the GET body. */
  lemma DigestRule(env: Env, w: World, u: Uri, m: Meta, head: Response)
    requires Download(env.web, u, Head, MaxRedirects) == Ok(head)
    ensures head.contentMd5.Some? ==>
      DigestOf(env, w, New(u, m)) == Ok(Binary(env.base64Decode(head.contentMd5.value)))
    ensures head.contentMd5.None? && Download(env.web, u, Get, MaxRedirects).Ok? ==>
      DigestOf(env, w, New(u, m)) == Ok(Binary(env.md5(Download(env.web, u, Get, MaxRedirects).value.body)))
  {
  }

  /** The size is the Content-Length of the HEAD response and the MIME type its
      Content-Type. */
  lemma SizeAndType(env: Env, w: World, u: Uri, m: Meta, head: Response)
    requires Download(env.web, u, Head, MaxRedirects) == Ok(head)
    ensures SizeOf(env, w, New(u, m)) ==
      Ok(if head.contentLength.Some? then Int(head.contentLength.value) else Nil)
    ensures MimeTypeOf(env, w, New(u, m)) == Ok(MimeValue(LookupMime(env.mimeTypes, head.contentType)))
  {
  }
}
