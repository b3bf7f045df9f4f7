/** The values the CardDAV engine (src/carddav.cpp) exchanges with the
    outside world: the server URL as QUrl splits it, the requests it issues,
    the replies it receives, the calls it defers to the event loop, and the
    signals it emits. */
module EngineTypes {
  import opened Optional
  import opened ParserTypes
  import opened VTree
  import opened SyncState

  /** A URL as QUrl splits it; `port` is "" when the URL names none. */
  datatype Url = Url(scheme: string, host: string, port: string, path: string)

  /** How far service discovery has got (RFC 6764, section 6). */
  datatype DiscoveryStage = DiscoveryStarted | DiscoveryRedirected | DiscoveryTryRoot

  /** One request handed to the request generator, with the properties the
      engine attaches to its reply. The server URL of the requests after
      discovery is the engine's (unchanging) `serverUrl` and is not repeated. */
  datatype Request =
    | PrincipalRequest(url: Url)
    | HomeSetRequest(userPath: string)
    | AddressbooksRequest(homePath: string)
    | DeltaRequest(addressbookUrl: string, syncToken: string)
    | MetadataRequest(addressbookUrl: string)
    | MultigetRequest(addressbookUrl: string, uris: seq<string>)
    | AddModRequest(addressbookUrl: string, uri: string, etag: string, vcard: string, guid: string)
    | DeletionRequest(addressbookUrl: string, uri: string, etag: string)

  datatype Header = Header(name: string, value: string)

  /** A finished reply: whether the network layer reported an error, the
      HTTP status, the URL that was answered, the redirection target (`None`
      for an empty QUrl), the body as a document tree, and the raw headers. */
  datatype Reply = Reply(
    failed: bool, httpStatus: int, url: Url, redirect: Option<Url>,
    body: seq<Element>, headers: seq<Header>)

  /** A slot queued with `QTimer::singleShot(0, ...)`. */
  datatype Deferred = DeferredDownsyncComplete | DeferredUpsyncComplete

  /** The engine's signals. `Error(None)` is `emit error()` with no code. */
  datatype EngineSignal =
    | Error(code: Option<int>)
    | RemoteChanges(added: seq<Contact>, modified: seq<Contact>, removed: seq<Contact>)
    | UpsyncCompleted

  /** The barrier a request's reply eventually completes: a delta, metadata
      or multiget request ends in one `downsyncComplete`, an upload or a
      deletion in one `upsyncComplete`; discovery requests in neither. */
  function BarrierOf(r: Request): Option<Deferred>
  {
    match r
    case DeltaRequest(_, _) => Some(DeferredDownsyncComplete)
    case MetadataRequest(_) => Some(DeferredDownsyncComplete)
    case MultigetRequest(_, _) => Some(DeferredDownsyncComplete)
    case AddModRequest(_, _, _, _, _) => Some(DeferredUpsyncComplete)
    case DeletionRequest(_, _, _) => Some(DeferredUpsyncComplete)
    case _ => None
  }

  /** The number of outstanding requests that end in barrier `d`. */
  function CountRequests(rs: seq<Request>, d: Deferred): nat
  {
    if rs == [] then 0 else (if BarrierOf(rs[0]) == Some(d) then 1 else 0) + CountRequests(rs[1..], d)
  }

  /** The number of queued calls of barrier `d`. */
  function CountDeferred(ps: seq<Deferred>, d: Deferred): nat
  {
    if ps == [] then 0 else (if ps[0] == d then 1 else 0) + CountDeferred(ps[1..], d)
  }

  /** Everything still due to complete barrier `d` once: each outstanding
      request and each queued call. */
  function Tokens(rs: seq<Request>, ps: seq<Deferred>, d: Deferred): nat
  {
    CountRequests(rs, d) + CountDeferred(ps, d)
  }

  lemma {:induction false} CountRequestsAppend(a: seq<Request>, b: seq<Request>, d: Deferred)
    ensures CountRequests(a + b, d) == CountRequests(a, d) + CountRequests(b, d)
  {
    if a != [] {
      assert (a + b)[1..] == a[1..] + b;
      CountRequestsAppend(a[1..], b, d);
    } else {
      assert a + b == b;
    }
  }

  lemma {:induction false} CountDeferredAppend(a: seq<Deferred>, b: seq<Deferred>, d: Deferred)
    ensures CountDeferred(a + b, d) == CountDeferred(a, d) + CountDeferred(b, d)
  {
    if a != [] {
      assert (a + b)[1..] == a[1..] + b;
      CountDeferredAppend(a[1..], b, d);
    } else {
      assert a + b == b;
    }
  }

  /** Issuing one request adds one token to its barrier and none to the
      other. */
  lemma IssueAddsToken(rs: seq<Request>, r: Request, d: Deferred)
    ensures CountRequests(rs + [r], d) == CountRequests(rs, d) + (if BarrierOf(r) == Some(d) then 1 else 0)
  {
    CountRequestsAppend(rs, [r], d);
  }

  /** Queuing one call adds one token to its barrier. */
  lemma DeferAddsToken(ps: seq<Deferred>, p: Deferred, d: Deferred)
    ensures CountDeferred(ps + [p], d) == CountDeferred(ps, d) + (if p == d then 1 else 0)
  {
    CountDeferredAppend(ps, [p], d);
  }

  /** Handling an outstanding request's reply takes exactly its token. */
  lemma {:induction false} ReplyTakesToken(rs: seq<Request>, r: Request, d: Deferred)
    requires r in rs
    ensures CountRequests(RemoveOne(rs, r), d) + (if BarrierOf(r) == Some(d) then 1 else 0) == CountRequests(rs, d)
  {
    if rs[0] != r {
      ReplyTakesToken(rs[1..], r, d);
      assert RemoveOne(rs, r) == [rs[0]] + RemoveOne(rs[1..], r);
      assert ([rs[0]] + RemoveOne(rs[1..], r))[1..] == RemoveOne(rs[1..], r);
    }
  }

  /** Running the head of the event queue takes exactly its token. */
  lemma RunTakesToken(ps: seq<Deferred>, d: Deferred)
    requires ps != []
    ensures CountDeferred(ps[1..], d) + (if ps[0] == d then 1 else 0) == CountDeferred(ps, d)
  {
  }

  /** The counter and the number of barrier signals after `k` calls of
      `downsyncComplete` (or `upsyncComplete`) starting from `counter`: each
      call decrements, and signals when the count reaches zero. */
  function Drain(counter: int, k: nat): (int, nat)
    decreases k
  {
    if k == 0 then (counter, 0)
    else
      var r := Drain(counter - 1, k - 1);
      (r.0, r.1 + (if counter - 1 == 0 then 1 else 0))
  }

  /** Starting from `n`, the barrier signals exactly once, at the `n`-th
      completion, and never before. */
  lemma {:induction false} DrainSignalsOnce(n: nat, k: nat)
    requires k <= n
    ensures Drain(n, k) == (n - k, if k == n && n > 0 then 1 else 0)
  {
    if k > 0 {
      DrainSignalsOnce(n - 1, k - 1);
    }
  }

  /** A counter one higher than the tokens that can decrement it never
      reaches zero: however many of them complete, the barrier stays
      silent. */
  lemma LeakedBarrierNeverSignals(tokens: nat, k: nat)
    requires k <= tokens
    ensures Drain(tokens + 1, k).1 == 0
    ensures Drain(tokens + 1, k).0 >= 1
  {
    DrainSignalsOnce(tokens + 1, k);
  }
}
