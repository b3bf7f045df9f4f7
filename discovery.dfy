/** Service discovery (src/carddav.cpp:300-422): which URL the
    current-user-principal request goes to, and what the engine does with
    the reply -- retry on another URL, follow a redirect, give up, or go on
    to parse the body. */
module Discovery {
  import opened Optional
  import opened Strings
  import opened EngineTypes

  const WellKnownPath := "/.well-known/carddav"

  /** `"%1://%2/.well-known/carddav"` of the URL's scheme and host; the
      port is not carried over. */
  function WellKnownUrl(u: Url): Url
  {
    Url(u.scheme, u.host, "", WellKnownPath)
  }

  /** `"%1://%2/"` of the URL's scheme and host. */
  function RootUrl(u: Url): Url
  {
    Url(u.scheme, u.host, "", "/")
  }

  /** `"%1://%2%3"` of the redirection target's scheme, host and path. */
  function RedirectedUrl(r: Url): Url
  {
    Url(r.scheme, r.host, "", r.path)
  }

  predicate IsWellKnown(path: string)
  {
    EndsWith(path, ".well-known/carddav")
  }

  /** src/carddav.cpp:336-341: the URL `fetchUserInformation` requests and
      stores as the new server URL. */
  function RequestUrl(stage: DiscoveryStage, serverUrl: Url): Url
  {
    if stage == DiscoveryStarted && (serverUrl.path == "" || serverUrl.path == "/") then WellKnownUrl(serverUrl)
    else serverUrl
  }

  /** What `userInformationResponse` does with a reply. */
  datatype Decision = Retry(serverUrl: Url, stage: DiscoveryStage) | Fail(code: int) | ParseBody

  /** src/carddav.cpp:371-423, up to the parsing of the body. A failed
      reply is retried only in the first stage and only for 404 or 405; a
      redirect is followed only away from a well-known path. */
  function Decide(stage: DiscoveryStage, serverUrl: Url, reply: Reply): Decision
  {
    if reply.failed then
      if stage == DiscoveryStarted && (reply.httpStatus == 404 || reply.httpStatus == 405) then
        if !IsWellKnown(serverUrl.path) then Retry(WellKnownUrl(serverUrl), DiscoveryStarted)
        else Retry(RootUrl(serverUrl), DiscoveryTryRoot)
      else Fail(reply.httpStatus)
    else if reply.redirect.Some? then
      var orig, redir := reply.url, reply.redirect.value;
      if orig.path != redir.path then
        if IsWellKnown(orig.path) then Retry(RedirectedUrl(redir), DiscoveryRedirected)
        else Fail(301)
      else Fail(301)
    else ParseBody
  }

  lemma WellKnownPathIsWellKnown()
    ensures IsWellKnown(WellKnownPath)
  {
    assert WellKnownPath[|WellKnownPath| - |".well-known/carddav"|..] == ".well-known/carddav";
  }

  /** The first request never goes to an empty or "/" path: such a path is
      replaced by the well-known one on the same scheme and host. Any other
      URL, and every URL after the first stage, is requested as it is. */
  lemma RequestUrlRule(stage: DiscoveryStage, serverUrl: Url)
    ensures var u := RequestUrl(stage, serverUrl);
      && u.scheme == serverUrl.scheme && u.host == serverUrl.host
      && (stage == DiscoveryStarted ==> u.path != "" && u.path != "/")
      && (u != serverUrl ==> stage == DiscoveryStarted && u.path == WellKnownPath && u.port == "")
  {
  }

  /** The URL a retry stores is the URL the retried request goes to:
      `fetchUserInformation` does not rewrite it again. */
  lemma RetryRequestsItsUrl(stage: DiscoveryStage, serverUrl: Url, reply: Reply)
    requires Decide(stage, serverUrl, reply).Retry?
    ensures var d := Decide(stage, serverUrl, reply);
      RequestUrl(d.stage, d.serverUrl) == d.serverUrl
  {
  }

  /** How far a failed first request may still retry: twice from a path
      that is not well-known, once from the well-known path, never in a
      later stage. */
  function ErrorRetries(stage: DiscoveryStage, serverUrl: Url): nat
  {
    if stage != DiscoveryStarted then 0
    else if IsWellKnown(serverUrl.path) then 1
    else 2
  }

  /** Error retries are bounded: a retry after a failed reply only happens
      in the first stage, and it lands where fewer retries are left, so at
      most two failed replies are retried in a row. */
  lemma ErrorRetriesDecrease(stage: DiscoveryStage, serverUrl: Url, reply: Reply)
    requires reply.failed
    ensures Decide(stage, serverUrl, reply).Retry? ==>
      var d := Decide(stage, serverUrl, reply);
      stage == DiscoveryStarted
      && (reply.httpStatus == 404 || reply.httpStatus == 405)
      && ErrorRetries(d.stage, RequestUrl(d.stage, d.serverUrl)) < ErrorRetries(stage, serverUrl)
    ensures !Decide(stage, serverUrl, reply).Retry? ==> Decide(stage, serverUrl, reply) == Fail(reply.httpStatus)
  {
    WellKnownPathIsWellKnown();
  }

  /** A redirect is followed exactly when it leaves a well-known path for a
      different path; it then moves to the target's scheme, host and path in
      the redirected stage. A circular or unexpected redirect fails with
      301. */
  lemma RedirectRule(stage: DiscoveryStage, serverUrl: Url, reply: Reply)
    requires !reply.failed && reply.redirect.Some?
    ensures var d, redir := Decide(stage, serverUrl, reply), reply.redirect.value;
      && (d.Retry? <==> reply.url.path != redir.path && IsWellKnown(reply.url.path))
      && (d.Retry? ==> d == Retry(RedirectedUrl(redir), DiscoveryRedirected))
      && (!d.Retry? ==> d == Fail(301))
  {
  }

  /** The body is parsed exactly for a reply with neither error nor
      redirect. */
  lemma ParseOnlyPlainReplies(stage: DiscoveryStage, serverUrl: Url, reply: Reply)
    ensures Decide(stage, serverUrl, reply) == ParseBody <==> !reply.failed && reply.redirect.None?
  {
  }
}
