/** The HTTP side of the Http source: `Http.download`, the bounded
    redirect-following loop with its HEAD-to-GET fallback, and the per-verb
    response cache behind `Http#response`. The network is a reply oracle. */
module HttpFetch {
  import opened Outcomes
  import opened Uris
  import opened Metadata

  datatype Method = Head | Get

  /** The parts of a `Net::HTTPSuccess` the sources read. */
  datatype Response = Response(
    contentLength: Option<nat>,
    contentType: string,
    contentMd5: Option<string>,
    body: Bytes)

  /** What one request yields: a success, a redirection, any other status
      (with its message), or a connection that could not be made. */
  datatype Reply =
    | Success(response: Response)
    | Redirection(location: Uri)
    | Refused(message: string)
    | Unreachable(message: string)

  /** The network: the reply a request with a verb to a URI receives. */
  type Web = (Uri, Method) -> Reply

  /** The default redirection budget of `download`. */
  const MaxRedirects: nat := 5

  /** `Http.download(uri, method, count)`. */
  function Download(web: Web, uri: Uri, verb: Method, count: nat): (r: Result<Response>)
    ensures r.Err? ==> r.error.TooManyRedirects? || r.error.CouldNotOpen? || r.error.ConnectionFailed?
    decreases (if verb == Head then 1 else 0), count
  {
    match web(uri, verb)
    case Success(resp) => Ok(resp)
    case Redirection(location) =>
      if count == 0 then Err(TooManyRedirects)
      else Download(web, location, verb, count - 1)
    case Refused(message) =>
      if verb == Get then Err(CouldNotOpen(message))
      else Download(web, uri, Get, MaxRedirects)
    case Unreachable(message) => Err(ConnectionFailed(message))
  }

  /** The message `e.to_s` gives for an exception `download` raises. */
  function Message(e: Error): string
  {
    match e
    case TooManyRedirects => "URL results in too many redirections."
    case CouldNotOpen(m) => "Couldn't open URL (" + m + ")"
    case ConnectionFailed(m) => m
    case _ => ""
  }

  /** A redirect chain: each URI answers the verb with a redirection to the
      next one. */
  predicate RedirectChain(web: Web, chain: seq<Uri>, verb: Method) {
    |chain| >= 1 &&
    forall i :: 0 <= i < |chain| - 1 ==> web(chain[i], verb) == Redirection(chain[i + 1])
  }

  /** Completeness: a GET whose chain of at most `count` redirections ends in a
      success is downloaded. */
  lemma {:induction false} DownloadFollowsChain(web: Web, chain: seq<Uri>, count: nat, resp: Response)
    requires RedirectChain(web, chain, Get)
    requires |chain| <= count + 1
    requires web(chain[|chain| - 1], Get) == Success(resp)
    ensures Download(web, chain[0], Get, count) == Ok(resp)
    decreases |chain|
  {
    if |chain| > 1 {
      assert web(chain[0], Get) == Redirection(chain[1]);
      var rest := chain[1..];
      assert RedirectChain(web, rest, Get) by {
        forall i | 0 <= i < |rest| - 1
          ensures web(rest[i], Get) == Redirection(rest[i + 1])
        {
          assert rest[i] == chain[i + 1] && rest[i + 1] == chain[i + 2];
        }
      }
      DownloadFollowsChain(web, rest, count - 1, resp);
    }
  }

  /** Soundness: a successful GET is the reply at the end of a chain of at
      most `count` redirections that starts at the requested URI. */
  lemma {:induction false} DownloadIsChain(web: Web, uri: Uri, count: nat, resp: Response)
    returns (chain: seq<Uri>)
    requires Download(web, uri, Get, count) == Ok(resp)
    ensures RedirectChain(web, chain, Get) && chain[0] == uri
    ensures |chain| <= count + 1
    ensures web(chain[|chain| - 1], Get) == Success(resp)
    decreases count
  {
    if web(uri, Get).Success? {
      chain := [uri];
    } else {
      assert web(uri, Get).Redirection? && count > 0;
      var location := web(uri, Get).location;
      var rest := DownloadIsChain(web, location, count - 1, resp);
      chain := [uri] + rest;
      forall i | 0 <= i < |chain| - 1
        ensures web(chain[i], Get) == Redirection(chain[i + 1])
      {
        if i > 0 {
          assert chain[i] == rest[i - 1] && chain[i + 1] == rest[i];
        }
      }
    }
  }

  /** A chain of more than `count` redirections exhausts the budget. */
  lemma {:induction false} DownloadRedirectLimit(web: Web, chain: seq<Uri>, verb: Method, count: nat)
    requires RedirectChain(web, chain, verb)
    requires |chain| == count + 2
    ensures Download(web, chain[0], verb, count) == Err(TooManyRedirects)
    decreases count
  {
    assert web(chain[0], verb) == Redirection(chain[1]);
    if count > 0 {
      var rest := chain[1..];
      assert RedirectChain(web, rest, verb) by {
        forall i | 0 <= i < |rest| - 1
          ensures web(rest[i], verb) == Redirection(rest[i + 1])
        {
          assert rest[i] == chain[i + 1] && rest[i + 1] == chain[i + 2];
        }
      }
      DownloadRedirectLimit(web, rest, verb, count - 1);
    }
  }

  /** A HEAD whose chain ends in a refusal is answered by a fresh GET of the
      refusing URI with the full redirection budget. */
  lemma {:induction false} HeadFallsBackToGet(web: Web, chain: seq<Uri>, count: nat, message: string)
    requires RedirectChain(web, chain, Head)
    requires |chain| <= count + 1
    requires web(chain[|chain| - 1], Head) == Refused(message)
    ensures Download(web, chain[0], Head, count) == Download(web, chain[|chain| - 1], Get, MaxRedirects)
    decreases |chain|
  {
    if |chain| > 1 {
      assert web(chain[0], Head) == Redirection(chain[1]);
      var rest := chain[1..];
      assert RedirectChain(web, rest, Head) by {
        forall i | 0 <= i < |rest| - 1
          ensures web(rest[i], Head) == Redirection(rest[i + 1])
        {
          assert rest[i] == chain[i + 1] && rest[i + 1] == chain[i + 2];
        }
      }
      HeadFallsBackToGet(web, rest, count - 1, message);
    }
  }

  /** `@method` and `@response`: the method last asked for and the response
      last obtained. */
  datatype Cache = Cache(verb: Option<Method>, response: Option<Response>)

  const EmptyCache := Cache(None, None)

  /** `Http#response(method)`: the cached response when the verb matches;
      otherwise a download whose failure becomes MissingSource. The verb is
      recorded before the download, so a failed download leaves the new verb
      paired with the previous response. Writing the cache of a frozen source
      raises, and that error too becomes MissingSource. */
  function Fetch(web: Web, uri: Uri, cache: Cache, frozen: bool, verb: Method): (r: (Result<Option<Response>>, Cache))
    ensures cache.verb == Some(verb) ==> r == (Ok(cache.response), cache)
    ensures cache.verb != Some(verb) && r.0.Ok? ==>
      r.0 == Ok(r.1.response) && r.1.response.Some? && r.1.verb == Some(verb) &&
      Download(web, uri, verb, MaxRedirects) == Ok(r.1.response.value)
    ensures cache.verb != Some(verb) && r.0.Err? ==> r.0.error.MissingSource?
    ensures cache.verb != Some(verb) && r.0.Err? && !frozen ==>
      r.1 == Cache(Some(verb), cache.response) && Download(web, uri, verb, MaxRedirects).Err?
    ensures frozen ==> r.1 == cache
  {
    if cache.verb == Some(verb) then (Ok(cache.response), cache)
    else if frozen then (Err(MissingSource("can't modify frozen object")), cache)
    else
      match Download(web, uri, verb, MaxRedirects)
      case Ok(resp) => (Ok(Some(resp)), Cache(Some(verb), Some(resp)))
      case Err(e) => (Err(MissingSource(Message(e))), Cache(Some(verb), cache.response))
  }

  /** Asking twice for the same verb downloads at most once: a success is
      returned again, and after a failure the second call returns the stale
      response that was cached before. */
  lemma FetchTwice(web: Web, uri: Uri, cache: Cache, verb: Method)
    ensures var (r1, c1) := Fetch(web, uri, cache, false, verb);
            var (r2, c2) := Fetch(web, uri, c1, false, verb);
            c2 == c1 && (r1.Ok? ==> r2 == r1) && (r1.Err? ==> r2 == Ok(cache.response))
  {
  }
}
