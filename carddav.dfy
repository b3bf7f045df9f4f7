/** The CardDAV engine (class CardDav of src/carddav.cpp): its fields, its
    request/reply methods for discovery, downsync and upsync, and the
    completion counters that decide when `remoteChanges` and
    `upsyncCompleted` are emitted. Requests are recorded in `requests`
    until their reply is handled; calls queued with a zero timer are
    recorded in `pending` until they run; signals are recorded in `emitted`.
    The request generator is `canBuild`: it says whether a request could be
    built (the source's null-reply check). */
module CardDavEngine {
  import opened Optional
  import opened Strings
  import opened OrderedKeys
  import opened ParserTypes
  import VTree
  import opened SyncState
  import opened VCardConverter
  import opened Replies
  import opened EngineTypes
  import opened Discovery
  import D = Downsync
  import U = Upsync

  class CardDav {
    const q: Syncer
    const converter: CardDavVCardConverter
    const parser: ReplyParser
    const canBuild: Request -> bool

    var serverUrl: Url
    var discoveryStage: DiscoveryStage
    var downsyncRequests: int
    var upsyncRequests: int
    var remoteAdditions: seq<Contact>
    var remoteModifications: seq<Contact>
    var remoteRemovals: seq<Contact>
    var requests: seq<Request>
    var pending: seq<Deferred>
    var emitted: seq<EngineSignal>

    /** The parser shares the engine's syncer and converter. */
    predicate Wired()
    {
      parser.q == q && parser.converter == converter
    }

    constructor (q: Syncer, serverUrl: Url, canBuild: Request -> bool)
      ensures this.q == q && this.serverUrl == serverUrl && this.canBuild == canBuild
      ensures discoveryStage == DiscoveryStarted && downsyncRequests == 0 && upsyncRequests == 0
      ensures remoteAdditions == [] && remoteModifications == [] && remoteRemovals == []
      ensures requests == [] && pending == [] && emitted == []
      ensures Wired() && converter.Idle() && fresh(converter) && fresh(parser)
    {
      this.q := q;
      var c := new CardDavVCardConverter();
      converter := c;
      parser := new ReplyParser(q, c);
      this.serverUrl := serverUrl;
      this.canBuild := canBuild;
      discoveryStage := DiscoveryStarted;
      downsyncRequests, upsyncRequests := 0, 0;
      remoteAdditions, remoteModifications, remoteRemovals := [], [], [];
      requests, pending, emitted := [], [], [];
    }

    /** The state the downsync decisions read and write. */
    function DownsyncView(): D.Downsync
      reads this, q
    {
      D.Downsync(q.defaultAddressbook, q.addressbookCtags, q.addressbookSyncTokens,
                 downsyncRequests, requests, pending, emitted)
    }

    /** How far `m_downsyncRequests` is ahead of the outstanding downsync
        work; every successful path keeps it. */
    function DownsyncSurplus(): int
      reads this
    {
      downsyncRequests - Tokens(requests, pending, DeferredDownsyncComplete)
    }

    function UpsyncSurplus(): int
      reads this
    {
      upsyncRequests - Tokens(requests, pending, DeferredUpsyncComplete)
    }

    /** Hand a request to the generator: recorded when it can be built,
        otherwise `error()`. */
    method Send(req: Request) returns (sent: bool)
      modifies this`requests, this`emitted
      ensures sent == canBuild(req)
      ensures requests == old(requests) + (if sent then [req] else [])
      ensures emitted == old(emitted) + (if sent then [] else [Error(None)])
    {
      sent := canBuild(req);
      if sent {
        requests := requests + [req];
      } else {
        emitted := emitted + [Error(None)];
      }
    }

    // -------------------------------------------------------------------
    // Discovery
    // -------------------------------------------------------------------

    /** src/carddav.cpp:308-353. */
    method FetchUserInformation()
      modifies this`serverUrl, this`requests, this`emitted
      ensures serverUrl == RequestUrl(discoveryStage, old(serverUrl))
      ensures var req := PrincipalRequest(serverUrl);
        && requests == old(requests) + (if canBuild(req) then [req] else [])
        && emitted == old(emitted) + (if canBuild(req) then [] else [Error(None)])
    {
      var firstRequest := discoveryStage == DiscoveryStarted;
      serverUrl := if firstRequest && (serverUrl.path == "" || serverUrl.path == "/") then WellKnownUrl(serverUrl) else serverUrl;
      var _ := Send(PrincipalRequest(serverUrl));
    }

    /** src/carddav.cpp:367-423: retry, follow the redirect, fail, or use
        the body, as `Decide` says. */
    method UserInformationResponse(req: Request, reply: Reply)
      requires req in requests && Wired()
      modifies this`serverUrl, this`discoveryStage, this`requests, this`emitted, this`downsyncRequests, this`pending,
               q`defaultAddressbook, q`addressbookCtags, q`addressbookSyncTokens
      ensures var d := Decide(old(discoveryStage), old(serverUrl), reply);
        var rest := RemoveOne(old(requests), req);
        && (d.Retry? ==>
              serverUrl == d.serverUrl && discoveryStage == d.stage
              && requests == rest + (if canBuild(PrincipalRequest(d.serverUrl)) then [PrincipalRequest(d.serverUrl)] else [])
              && emitted == old(emitted) + (if canBuild(PrincipalRequest(d.serverUrl)) then [] else [Error(None)]))
        && (d.Fail? ==> requests == rest && emitted == old(emitted) + [Error(Some(d.code))])
        && (!d.Retry? ==> serverUrl == old(serverUrl) && discoveryStage == old(discoveryStage))
        && (!d.ParseBody? ==> DownsyncView() == old(DownsyncView()).(requests := requests, emitted := emitted))
        && (d.ParseBody? ==> PrincipalOutcome(reply.body, old(DownsyncView()).(requests := rest)))
    {
      requests := RemoveOne(requests, req);
      var d := Decide(discoveryStage, serverUrl, reply);
      if d.Retry? {
        RetryRequestsItsUrl(discoveryStage, serverUrl, reply);
        serverUrl := d.serverUrl;
        discoveryStage := d.stage;
        FetchUserInformation();
      } else if d.Fail? {
        emitted := emitted + [Error(Some(d.code))];
      } else {
        UserPrincipalBody(reply.body);
      }
    }

    /** What the body of a plain reply to the principal request leads to:
        a user principal path leads on to the addressbook-home request, and
        addressbook information in place of a principal goes straight to the
        per-addressbook decisions; with neither, `error()`. */
    ghost predicate PrincipalOutcome(body: seq<VTree.Element>, before: D.Downsync)
      reads this, q
    {
      var (rt, userPath) := ParseUserPrincipal(body);
      var infos := AddressbookRows(VTree.Responses(VTree.Multistatus(body)));
      var next := HomeSetRequest(userPath);
      && (rt == UserPrincipalResponse && userPath == "" ==> DownsyncView() == before.(emitted := before.emitted + [Error(None)]))
      && (rt == UserPrincipalResponse && userPath != "" ==>
            DownsyncView() == before.(requests := before.requests + (if canBuild(next) then [next] else []),
                                      emitted := before.emitted + (if canBuild(next) then [] else [Error(None)])))
      && (rt == AddressbookInformationResponse && infos == [] ==> DownsyncView() == before.(emitted := before.emitted + [Error(None)]))
      && (rt == AddressbookInformationResponse && infos != [] ==> DownsyncView() == D.DownsyncFold(before, infos, canBuild))
    }

    /** src/carddav.cpp:425-448. */
    method UserPrincipalBody(body: seq<VTree.Element>)
      requires Wired()
      modifies this`requests, this`emitted, this`downsyncRequests, this`pending,
               q`defaultAddressbook, q`addressbookCtags, q`addressbookSyncTokens
      ensures PrincipalOutcome(body, old(DownsyncView()))
    {
      var (responseType, userPath) := ParseUserPrincipal(body);
      if responseType == UserPrincipalResponse {
        if userPath == "" {
          emitted := emitted + [Error(None)];
          return;
        }
        FetchAddressbookUrls(userPath);
      } else {
        var infos := parser.ParseAddressbookInformation(body);
        if infos == [] {
          emitted := emitted + [Error(None)];
          return;
        }
        DownsyncAddressbookContent(infos);
      }
    }

    /** src/carddav.cpp:451-462. */
    method FetchAddressbookUrls(userPath: string)
      modifies this`requests, this`emitted
      ensures var req := HomeSetRequest(userPath);
        && requests == old(requests) + (if canBuild(req) then [req] else [])
        && emitted == old(emitted) + (if canBuild(req) then [] else [Error(None)])
    {
      var _ := Send(HomeSetRequest(userPath));
    }

    /** src/carddav.cpp:464-485: a failed reply emits its status, a reply
        without an addressbook home emits `error()`, otherwise the
        addressbook information is requested from that home. */
    method AddressbookUrlsResponse(req: Request, reply: Reply)
      requires req in requests
      modifies this`requests, this`emitted
      ensures var rest, home := RemoveOne(old(requests), req), AddressbookHome(reply.body);
        && (reply.failed ==> requests == rest && emitted == old(emitted) + [Error(Some(reply.httpStatus))])
        && (!reply.failed && home == "" ==> requests == rest && emitted == old(emitted) + [Error(None)])
        && (!reply.failed && home != "" ==>
              var next := AddressbooksRequest(home);
              requests == rest + (if canBuild(next) then [next] else [])
              && emitted == old(emitted) + (if canBuild(next) then [] else [Error(None)]))
    {
      requests := RemoveOne(requests, req);
      if reply.failed {
        emitted := emitted + [Error(Some(reply.httpStatus))];
        return;
      }
      var addressbooksHomePath := parser.ParseAddressbookHome(reply.body);
      if addressbooksHomePath == "" {
        emitted := emitted + [Error(None)];
        return;
      }
      FetchAddressbooksInformation(addressbooksHomePath);
    }

    /** src/carddav.cpp:487-498. */
    method FetchAddressbooksInformation(addressbooksHomePath: string)
      modifies this`requests, this`emitted
      ensures var req := AddressbooksRequest(addressbooksHomePath);
        && requests == old(requests) + (if canBuild(req) then [req] else [])
        && emitted == old(emitted) + (if canBuild(req) then [] else [Error(None)])
    {
      var _ := Send(AddressbooksRequest(addressbooksHomePath));
    }

    /** src/carddav.cpp:500-521: a failed reply emits its status, a reply
        listing no addressbook emits `error()`, otherwise each addressbook
        is decided on. */
    method AddressbooksInformationResponse(req: Request, reply: Reply)
      requires req in requests && Wired()
      modifies this`requests, this`emitted, this`downsyncRequests, this`pending,
               q`defaultAddressbook, q`addressbookCtags, q`addressbookSyncTokens
      ensures var rest, infos := RemoveOne(old(requests), req), AddressbookRows(VTree.Responses(VTree.Multistatus(reply.body)));
        && (reply.failed ==> DownsyncView() == old(DownsyncView()).(requests := rest, emitted := old(emitted) + [Error(Some(reply.httpStatus))]))
        && (!reply.failed && infos == [] ==> DownsyncView() == old(DownsyncView()).(requests := rest, emitted := old(emitted) + [Error(None)]))
        && (!reply.failed && infos != [] ==> DownsyncView() == D.DownsyncFold(old(DownsyncView()).(requests := rest), infos, canBuild))
    {
      requests := RemoveOne(requests, req);
      if reply.failed {
        emitted := emitted + [Error(Some(reply.httpStatus))];
        return;
      }
      var infos := parser.ParseAddressbookInformation(reply.body);
      if infos == [] {
        emitted := emitted + [Error(None)];
        return;
      }
      DownsyncAddressbookContent(infos);
    }

    // -------------------------------------------------------------------
    // Downsync
    // -------------------------------------------------------------------

    /** src/carddav.cpp:523-581: the decision for each addressbook in
        turn. */
    method DownsyncAddressbookContent(infos: seq<AddressBookInformation>)
      modifies this`requests, this`emitted, this`downsyncRequests, this`pending,
               q`defaultAddressbook, q`addressbookCtags, q`addressbookSyncTokens
      ensures DownsyncView() == D.DownsyncFold(old(DownsyncView()), infos, canBuild)
    {
      var i := 0;
      while i < |infos|
        invariant 0 <= i <= |infos|
        invariant DownsyncView() == D.DownsyncFold(old(DownsyncView()), infos[..i], canBuild)
      {
        D.DownsyncFoldPrefix(old(DownsyncView()), infos, i, canBuild);
        DownsyncAddressbook(infos[i]);
        i := i + 1;
      }
      assert infos[..i] == infos;
    }

    /** One addressbook of `downsyncAddressbookContent`. The stored sync
        token is held through a reference into the table, so after the
        table entry is overwritten it reads the new token. */
    method DownsyncAddressbook(info: AddressBookInformation)
      modifies this`requests, this`emitted, this`downsyncRequests, this`pending,
               q`defaultAddressbook, q`addressbookCtags, q`addressbookSyncTokens
      ensures DownsyncView() == D.AddressbookStep(old(DownsyncView()), info, canBuild)
    {
      var url := info.url;
      if q.defaultAddressbook == "" {
        q.defaultAddressbook := url;
      }
      if info.syncToken == "" {
        var existingCtag := Get(q.addressbookCtags, url);
        q.addressbookCtags := Touch(q.addressbookCtags, url);
        if existingCtag == "" || existingCtag != info.ctag {
          q.addressbookCtags := q.addressbookCtags[url := info.ctag];
          FetchContactMetadata(url);
        } else {
          downsyncRequests := downsyncRequests + 1;
          pending := pending + [DeferredDownsyncComplete];
        }
      } else {
        var existingSyncToken := Get(q.addressbookSyncTokens, url);
        q.addressbookSyncTokens := Touch(q.addressbookSyncTokens, url);
        if info.ctag != "" {
          q.addressbookCtags := q.addressbookCtags[url := info.ctag];
        }
        if existingSyncToken == "" {
          q.addressbookSyncTokens := q.addressbookSyncTokens[url := info.syncToken];
          FetchContactMetadata(url);
        } else if existingSyncToken != info.syncToken {
          q.addressbookSyncTokens := q.addressbookSyncTokens[url := info.syncToken];
          FetchImmediateDelta(url, Get(q.addressbookSyncTokens, url));
        } else {
          downsyncRequests := downsyncRequests + 1;
          pending := pending + [DeferredDownsyncComplete];
        }
      }
    }

    /** src/carddav.cpp:583-599. */
    method FetchImmediateDelta(addressbookUrl: string, syncToken: string)
      modifies this`requests, this`emitted, this`downsyncRequests
      ensures DownsyncView() == D.Issue(old(DownsyncView()), DeltaRequest(addressbookUrl, syncToken), canBuild)
    {
      var sent := Send(DeltaRequest(addressbookUrl, syncToken));
      if sent {
        downsyncRequests := downsyncRequests + 1;
      }
    }

    /** src/carddav.cpp:622-635. */
    method FetchContactMetadata(addressbookUrl: string)
      modifies this`requests, this`emitted, this`downsyncRequests
      ensures DownsyncView() == D.Issue(old(DownsyncView()), MetadataRequest(addressbookUrl), canBuild)
    {
      var sent := Send(MetadataRequest(addressbookUrl));
      if sent {
        downsyncRequests := downsyncRequests + 1;
      }
    }

    /** src/carddav.cpp:601-620. A failed delta report falls back to a
        full metadata report, which is counted again; otherwise the reported
        sync token is stored and the rows are partitioned. */
    method ImmediateDeltaResponse(req: Request, reply: Reply)
      requires req in requests && req.DeltaRequest? && Wired() && q.IndicesValid()
      modifies this`requests, this`emitted, this`downsyncRequests, this`pending, this`remoteRemovals,
               q`addressbookSyncTokens, q`serverAdditions, q`serverModifications, q`serverDeletions,
               q`serverAdditionIndices, q`serverModificationIndices,
               q`contactUids, q`contactUris, q`contactEtags, q`contactIds, q`contactUnsupportedProperties,
               q`addressbookContactGuids
      ensures q.IndicesValid()
      ensures reply.failed ==> DownsyncView() == D.FallBack(old(DownsyncView()), req, canBuild)
      ensures !reply.failed ==>
        && q.addressbookSyncTokens == old(q.addressbookSyncTokens)[req.addressbookUrl := VTree.TextAt(VTree.Multistatus(reply.body), ["sync-token"])]
        && (|emitted| == |old(emitted)| ==> DownsyncSurplus() == old(DownsyncSurplus()))
    {
      var addressbookUrl := req.addressbookUrl;
      requests := RemoveOne(requests, req);
      if reply.failed {
        FetchContactMetadata(addressbookUrl);
        return;
      }
      ReplyTakesToken(old(requests), req, DeferredDownsyncComplete);
      DeltaBody(addressbookUrl, reply.body);
    }

    /** The successful half of `immediateDeltaResponse`. */
    method DeltaBody(addressbookUrl: string, body: seq<VTree.Element>)
      requires Wired() && q.IndicesValid()
      modifies this`requests, this`emitted, this`pending, this`remoteRemovals,
               q`addressbookSyncTokens, q`serverAdditions, q`serverModifications, q`serverDeletions,
               q`serverAdditionIndices, q`serverModificationIndices,
               q`contactUids, q`contactUris, q`contactEtags, q`contactIds, q`contactUnsupportedProperties,
               q`addressbookContactGuids
      ensures q.IndicesValid()
      ensures q.addressbookSyncTokens == old(q.addressbookSyncTokens)[addressbookUrl := VTree.TextAt(VTree.Multistatus(body), ["sync-token"])]
      ensures |emitted| == |old(emitted)| ==>
        Tokens(requests, pending, DeferredDownsyncComplete) == old(Tokens(requests, pending, DeferredDownsyncComplete)) + 1
    {
      var infos, newSyncToken := parser.ParseSyncTokenDelta(body);
      q.addressbookSyncTokens := q.addressbookSyncTokens[addressbookUrl := newSyncToken];
      FetchContacts(addressbookUrl, infos);
    }

    /** src/carddav.cpp:637-653: a failed report emits its status;
        otherwise the rows the parser derives are partitioned. */
    method ContactMetadataResponse(req: Request, reply: Reply)
      requires req in requests && req.MetadataRequest? && Wired() && q.IndicesValid()
      modifies this`requests, this`emitted, this`downsyncRequests, this`pending, this`remoteRemovals,
               q`serverAdditions, q`serverModifications, q`serverDeletions,
               q`serverAdditionIndices, q`serverModificationIndices,
               q`contactUids, q`contactUris, q`contactEtags, q`contactIds, q`contactUnsupportedProperties,
               q`addressbookContactGuids
      ensures q.IndicesValid()
      ensures reply.failed ==>
        && requests == RemoveOne(old(requests), req) && emitted == old(emitted) + [Error(Some(reply.httpStatus))]
        && downsyncRequests == old(downsyncRequests) && pending == old(pending)
      ensures !reply.failed && |emitted| == |old(emitted)| ==> DownsyncSurplus() == old(DownsyncSurplus())
    {
      var addressbookUrl := req.addressbookUrl;
      requests := RemoveOne(requests, req);
      if reply.failed {
        emitted := emitted + [Error(Some(reply.httpStatus))];
        return;
      }
      ReplyTakesToken(old(requests), req, DeferredDownsyncComplete);
      MetadataBody(addressbookUrl, reply.body);
    }

    /** The successful half of `contactMetadataResponse`. */
    method MetadataBody(addressbookUrl: string, body: seq<VTree.Element>)
      requires Wired() && q.IndicesValid()
      modifies this`requests, this`emitted, this`pending, this`remoteRemovals,
               q`serverAdditions, q`serverModifications, q`serverDeletions,
               q`serverAdditionIndices, q`serverModificationIndices,
               q`contactUids, q`contactUris, q`contactEtags, q`contactIds, q`contactUnsupportedProperties,
               q`addressbookContactGuids
      ensures q.IndicesValid()
      ensures |emitted| == |old(emitted)| ==>
        Tokens(requests, pending, DeferredDownsyncComplete) == old(Tokens(requests, pending, DeferredDownsyncComplete)) + 1
    {
      var infos := parser.ParseContactMetadata(body, addressbookUrl);
      FetchContacts(addressbookUrl, infos);
    }

    /** The server-change lists and indices of one addressbook. */
    function PartitionView(addressbookUrl: string): D.Partition
      reads q
    {
      D.Partition(GetInfos(q.serverAdditions, addressbookUrl), GetInfos(q.serverModifications, addressbookUrl),
                  GetInfos(q.serverDeletions, addressbookUrl), GetIndices(q.serverAdditionIndices, addressbookUrl),
                  GetIndices(q.serverModificationIndices, addressbookUrl), [])
    }

    /** src/carddav.cpp:659-677: the rows split into the addressbook's
        addition, modification and deletion lists, with indices, and the
        uris to fetch. */
    method PartitionRows(addressbookUrl: string, amrInfo: seq<ContactInformation>) returns (contactUris: seq<string>)
      requires q.IndicesValid()
      modifies q`serverAdditions, q`serverModifications, q`serverDeletions, q`serverAdditionIndices, q`serverModificationIndices
      ensures var p := D.PartitionFold(old(PartitionView(addressbookUrl)), amrInfo);
        && q.serverAdditions == old(q.serverAdditions)[addressbookUrl := p.additions]
        && q.serverModifications == old(q.serverModifications)[addressbookUrl := p.modifications]
        && q.serverDeletions == old(q.serverDeletions)[addressbookUrl := p.deletions]
        && q.serverAdditionIndices == old(q.serverAdditionIndices)[addressbookUrl := p.additionIndices]
        && q.serverModificationIndices == old(q.serverModificationIndices)[addressbookUrl := p.modificationIndices]
        && contactUris == p.fetch
      ensures q.IndicesValid()
    {
      var p0 := PartitionView(addressbookUrl);
      var adds, mods, dels := p0.additions, p0.modifications, p0.deletions;
      var addIdx, modIdx := p0.additionIndices, p0.modificationIndices;
      contactUris := [];
      var i := 0;
      while i < |amrInfo|
        invariant 0 <= i <= |amrInfo|
        invariant D.Partition(adds, mods, dels, addIdx, modIdx, contactUris) == D.PartitionFold(p0, amrInfo[..i])
        invariant unchanged(q)
      {
        D.PartitionFoldPrefix(p0, amrInfo, i);
        var info := amrInfo[i];
        if info.modType == Addition {
          addIdx := addIdx[info.uri := |adds|];
          adds := adds + [info];
          contactUris := contactUris + [info.uri];
        } else if info.modType == Modification {
          modIdx := modIdx[info.uri := |mods|];
          mods := mods + [info];
          contactUris := contactUris + [info.uri];
        } else if info.modType == Deletion {
          dels := dels + [info];
        }
        i := i + 1;
      }
      assert amrInfo[..i] == amrInfo;
      D.PartitionIndices(p0, amrInfo);
      q.serverAdditions := q.serverAdditions[addressbookUrl := adds];
      q.serverModifications := q.serverModifications[addressbookUrl := mods];
      q.serverDeletions := q.serverDeletions[addressbookUrl := dels];
      q.serverAdditionIndices := q.serverAdditionIndices[addressbookUrl := addIdx];
      q.serverModificationIndices := q.serverModificationIndices[addressbookUrl := modIdx];
    }

    /** src/carddav.cpp:655-700: partition, then either fetch the full
        contacts of the additions and modifications with one multiget
        request, which carries on the count of the request it follows, or,
        with nothing to fetch, handle the deletions at once. */
    method FetchContacts(addressbookUrl: string, amrInfo: seq<ContactInformation>)
      requires q.IndicesValid()
      modifies this`requests, this`emitted, this`pending, this`remoteRemovals,
               q`serverAdditions, q`serverModifications, q`serverDeletions,
               q`serverAdditionIndices, q`serverModificationIndices,
               q`contactUids, q`contactUris, q`contactEtags, q`contactIds, q`contactUnsupportedProperties,
               q`addressbookContactGuids
      ensures q.IndicesValid()
      ensures var p := D.PartitionFold(old(PartitionView(addressbookUrl)), amrInfo);
        && PartitionView(addressbookUrl) == p.(fetch := [])
        && (p.fetch != [] ==>
              var m := MultigetRequest(addressbookUrl, p.fetch);
              requests == old(requests) + (if canBuild(m) then [m] else [])
              && emitted == old(emitted) + (if canBuild(m) then [] else [Error(None)])
              && pending == old(pending) && RemovalView(addressbookUrl) == old(RemovalView(addressbookUrl)))
        && (p.fetch == [] ==>
              && requests == old(requests) && emitted == old(emitted)
              && pending == old(pending) + [DeferredDownsyncComplete]
              && RemovalView(addressbookUrl) == D.RemovalFold(old(RemovalView(addressbookUrl)), p.deletions))
      ensures |emitted| == |old(emitted)| ==>
        Tokens(requests, pending, DeferredDownsyncComplete) == old(Tokens(requests, pending, DeferredDownsyncComplete)) + 1
    {
      var contactUris := PartitionRows(addressbookUrl, amrInfo);
      RequestOrComplete(addressbookUrl, contactUris);
    }

    /** src/carddav.cpp:682-697: the multiget request for the listed uris,
        or, with none, the deletions applied at once. */
    method RequestOrComplete(addressbookUrl: string, contactUris: seq<string>)
      modifies this`requests, this`emitted, this`pending, this`remoteRemovals,
               q`contactUids, q`contactUris, q`contactEtags, q`contactIds, q`contactUnsupportedProperties,
               q`addressbookContactGuids
      ensures contactUris != [] ==>
        var m := MultigetRequest(addressbookUrl, contactUris);
        && requests == old(requests) + (if canBuild(m) then [m] else [])
        && emitted == old(emitted) + (if canBuild(m) then [] else [Error(None)])
        && pending == old(pending) && RemovalView(addressbookUrl) == old(RemovalView(addressbookUrl))
      ensures contactUris == [] ==>
        && requests == old(requests) && emitted == old(emitted)
        && pending == old(pending) + [DeferredDownsyncComplete]
        && RemovalView(addressbookUrl) == D.RemovalFold(old(RemovalView(addressbookUrl)), GetInfos(q.serverDeletions, addressbookUrl))
      ensures |emitted| == |old(emitted)| ==>
        Tokens(requests, pending, DeferredDownsyncComplete) == old(Tokens(requests, pending, DeferredDownsyncComplete)) + 1
    {
      if contactUris == [] {
        ContactAddModsComplete(addressbookUrl);
        DeferAddsToken(old(pending), DeferredDownsyncComplete, DeferredDownsyncComplete);
      } else {
        var sent := Send(MultigetRequest(addressbookUrl, contactUris));
        IssueAddsToken(old(requests), MultigetRequest(addressbookUrl, contactUris), DeferredDownsyncComplete);
      }
    }

    /** The state `contactsResponse` records into for one addressbook. */
    function RecordedView(addressbookUrl: string): D.Recorded
      reads this, q
    {
      D.Recorded(GetInfos(q.serverAdditions, addressbookUrl), GetList(q.addressbookContactGuids, addressbookUrl),
                 q.contactEtags, q.contactUris, q.contactUnsupportedProperties, remoteAdditions, remoteModifications)
    }

    /** The recorded view with `added` and `modified` still to be appended
        to the reported contacts. */
    function PartialView(addressbookUrl: string, added: seq<Contact>, modified: seq<Contact>): D.Recorded
      reads this, q
    {
      D.Recorded(GetInfos(q.serverAdditions, addressbookUrl), GetList(q.addressbookContactGuids, addressbookUrl),
                 q.contactEtags, q.contactUris, q.contactUnsupportedProperties,
                 remoteAdditions + added, remoteModifications + modified)
    }

    /** src/carddav.cpp:702-763: a failed multiget emits its status;
        otherwise the fetched contacts are recorded and the deletions
        handled. */
    method ContactsResponse(req: Request, reply: Reply, read: string -> seq<VersitDocument>)
      requires req in requests && req.MultigetRequest? && Wired() && converter.Idle() && q.IndicesValid()
      modifies this`requests, this`emitted, this`pending, this`remoteAdditions, this`remoteModifications, this`remoteRemovals,
               converter, q`serverAdditions,
               q`contactUids, q`contactUris, q`contactEtags, q`contactIds, q`contactUnsupportedProperties,
               q`addressbookContactGuids
      ensures q.IndicesValid() && converter.Idle()
      ensures reply.failed ==>
        && requests == RemoveOne(old(requests), req) && emitted == old(emitted) + [Error(Some(reply.httpStatus))]
        && pending == old(pending) && downsyncRequests == old(downsyncRequests)
      ensures !reply.failed ==>
        && emitted == old(emitted) && pending == old(pending) + [DeferredDownsyncComplete]
        && DownsyncSurplus() == old(DownsyncSurplus())
    {
      var addressbookUrl := req.addressbookUrl;
      requests := RemoveOne(requests, req);
      if reply.failed {
        emitted := emitted + [Error(Some(reply.httpStatus))];
        return;
      }
      ReplyTakesToken(old(requests), req, DeferredDownsyncComplete);
      ContactsBody(addressbookUrl, reply.body, read);
      DeferAddsToken(old(pending), DeferredDownsyncComplete, DeferredDownsyncComplete);
    }

    /** The successful half of `contactsResponse`: parse, record in uri
        order, then handle the deletions. */
    method ContactsBody(addressbookUrl: string, body: seq<VTree.Element>, read: string -> seq<VersitDocument>)
      requires Wired() && converter.Idle() && q.IndicesValid()
      modifies this`pending, this`remoteAdditions, this`remoteModifications, this`remoteRemovals,
               converter, q`serverAdditions,
               q`contactUids, q`contactUris, q`contactEtags, q`contactIds, q`contactUnsupportedProperties,
               q`addressbookContactGuids
      ensures q.IndicesValid() && converter.Idle()
      ensures pending == old(pending) + [DeferredDownsyncComplete]
    {
      var addMods := parser.ParseContactData(body, read);
      var keys := SortKeys(addMods.Keys);
      SortedIsOrder(addMods.Keys);
      RecordAndComplete(addressbookUrl, addMods, keys);
    }

    /** The second half of `contactsResponse`: the fetched contacts recorded
        in the order of `keys` (the ascending uri order of the QMap walk, see
        `ContactsBody`), then `contactAddModsComplete` over the tables that
        recording left. */
    method RecordAndComplete(addressbookUrl: string, addMods: map<string, FullContactInformation>, keys: seq<string>)
      requires q.IndicesValid()
      requires forall k :: k in keys ==> k in addMods
      modifies this`pending, this`remoteAdditions, this`remoteModifications, this`remoteRemovals,
               q`serverAdditions, q`contactUids, q`contactUris, q`contactEtags, q`contactIds,
               q`contactUnsupportedProperties, q`addressbookContactGuids
      ensures q.IndicesValid()
      ensures var rec := D.RecordFold(old(RecordedView(addressbookUrl)), keys, addMods,
                GetIndices(q.serverAdditionIndices, addressbookUrl), GetIndices(q.serverModificationIndices, addressbookUrl),
                old(q.contactIds));
        GetInfos(q.serverAdditions, addressbookUrl) == rec.additions
        && remoteAdditions == rec.added && remoteModifications == rec.modified
        && RemovalView(addressbookUrl) == D.RemovalFold(
             old(RemovalView(addressbookUrl)).(uris := rec.uris, etags := rec.etags,
                                               unsupported := rec.unsupported, members := rec.members),
             GetInfos(q.serverDeletions, addressbookUrl))
      ensures pending == old(pending) + [DeferredDownsyncComplete]
    {
      RecordContacts(addressbookUrl, addMods, keys);
      ContactAddModsComplete(addressbookUrl);
    }

    /** The loop of `contactsResponse` over the fetched contacts, in the
        order of `keys`. */
    method RecordContacts(addressbookUrl: string, addMods: map<string, FullContactInformation>, keys: seq<string>)
      requires q.IndicesValid() && forall k :: k in keys ==> k in addMods
      modifies this`remoteAdditions, this`remoteModifications, q`serverAdditions,
               q`contactEtags, q`contactUris, q`contactUnsupportedProperties, q`addressbookContactGuids
      ensures IndicesInRangeOf(addressbookUrl)
      ensures RecordedView(addressbookUrl) == D.RecordFold(old(RecordedView(addressbookUrl)), keys, addMods,
        GetIndices(q.serverAdditionIndices, addressbookUrl), GetIndices(q.serverModificationIndices, addressbookUrl), q.contactIds)
      ensures forall u :: u != addressbookUrl ==>
        GetInfos(q.serverAdditions, u) == GetInfos(old(q.serverAdditions), u)
        && GetList(q.addressbookContactGuids, u) == GetList(old(q.addressbookContactGuids), u)
      ensures q.IndicesValid()
      ensures var rec := RecordedView(addressbookUrl);
        RemovalView(addressbookUrl) == old(RemovalView(addressbookUrl)).(uris := rec.uris, etags := rec.etags,
                                                                          unsupported := rec.unsupported, members := rec.members)
    {
      var addIdx := GetIndices(q.serverAdditionIndices, addressbookUrl);
      var modIdx := GetIndices(q.serverModificationIndices, addressbookUrl);
      assert IndexPoints(addIdx, GetInfos(q.serverAdditions, addressbookUrl));
      ghost var r0 := RecordedView(addressbookUrl);
      var added, modified := RecordAll(addressbookUrl, addMods, keys, addIdx, modIdx);
      remoteAdditions := remoteAdditions + added;
      remoteModifications := remoteModifications + modified;
      D.RecordFoldFrame(r0, keys, addMods, addIdx, modIdx, q.contactIds);
      RowsKeepUris(addIdx, r0.additions, GetInfos(q.serverAdditions, addressbookUrl));
    }

    /** The fetched contacts recorded in the order of `keys`; the reported
        contacts are returned rather than appended. */
    method RecordAll(addressbookUrl: string, addMods: map<string, FullContactInformation>, keys: seq<string>,
                     addIdx: map<string, int>, modIdx: map<string, int>)
      returns (added: seq<Contact>, modified: seq<Contact>)
      requires forall k :: k in keys ==> k in addMods
      requires D.IndicesInRange(addIdx, GetInfos(q.serverAdditions, addressbookUrl))
      modifies q`serverAdditions, q`contactEtags, q`contactUris, q`contactUnsupportedProperties, q`addressbookContactGuids
      ensures D.IndicesInRange(addIdx, GetInfos(q.serverAdditions, addressbookUrl))
      ensures PartialView(addressbookUrl, added, modified)
        == D.RecordFold(old(RecordedView(addressbookUrl)), keys, addMods, addIdx, modIdx, q.contactIds)
      ensures forall u :: u != addressbookUrl ==>
        GetInfos(q.serverAdditions, u) == GetInfos(old(q.serverAdditions), u)
        && GetList(q.addressbookContactGuids, u) == GetList(old(q.addressbookContactGuids), u)
    {
      ghost var r0 := RecordedView(addressbookUrl);
      added, modified := [], [];
      assert remoteAdditions + added == remoteAdditions && remoteModifications + modified == remoteModifications;
      var i := 0;
      while i < |keys|
        invariant 0 <= i <= |keys|
        invariant D.IndicesInRange(addIdx, GetInfos(q.serverAdditions, addressbookUrl))
        invariant PartialView(addressbookUrl, added, modified)
          == D.RecordFold(r0, keys[..i], addMods, addIdx, modIdx, q.contactIds)
        invariant forall u :: u != addressbookUrl ==>
          GetInfos(q.serverAdditions, u) == GetInfos(old(q.serverAdditions), u)
          && GetList(q.addressbookContactGuids, u) == GetList(old(q.addressbookContactGuids), u)
      {
        D.RecordFoldPrefix(r0, keys, i, addMods, addIdx, modIdx, q.contactIds);
        added, modified := RecordContact(addressbookUrl, keys[i], addMods[keys[i]], addIdx, modIdx, added, modified);
        i := i + 1;
      }
      assert keys[..i] == keys;
    }

    /** src/carddav.cpp:723-754, one fetched contact; `added` and
        `modified` collect the reported contacts. */
    method RecordContact(addressbookUrl: string, uri: string, fci: FullContactInformation,
                         addIdx: map<string, int>, modIdx: map<string, int>, added: seq<Contact>, modified: seq<Contact>)
      returns (added': seq<Contact>, modified': seq<Contact>)
      requires D.IndicesInRange(addIdx, GetInfos(q.serverAdditions, addressbookUrl))
      modifies q`serverAdditions, q`contactEtags, q`contactUris, q`contactUnsupportedProperties, q`addressbookContactGuids
      ensures PartialView(addressbookUrl, added', modified')
        == D.RecordStep(old(PartialView(addressbookUrl, added, modified)),
                        uri, fci, addIdx, modIdx, q.contactIds)
      ensures forall u :: u != addressbookUrl ==>
        GetInfos(q.serverAdditions, u) == GetInfos(old(q.serverAdditions), u)
        && GetList(q.addressbookContactGuids, u) == GetList(old(q.addressbookContactGuids), u)
    {
      added', modified' := added, modified;
      if uri in addIdx {
        var guid := Guid(fci.contact);
        var adds := GetInfos(q.serverAdditions, addressbookUrl);
        var k := addIdx[uri];
        q.serverAdditions := q.serverAdditions[addressbookUrl := adds[k := adds[k].(guid := guid)]];
        q.contactEtags := q.contactEtags[guid := fci.etag];
        q.contactUris := q.contactUris[guid := uri];
        q.contactUnsupportedProperties := q.contactUnsupportedProperties[guid := fci.unsupportedProperties];
        q.addressbookContactGuids := q.addressbookContactGuids[addressbookUrl := GetList(q.addressbookContactGuids, addressbookUrl) + [guid]];
        if guid in q.contactIds {
          added' := added + [fci.contact.(id := Some(q.contactIds[guid]))];
        } else {
          added' := added + [fci.contact];
        }
        assert remoteAdditions + added' == (remoteAdditions + added) + [D.WithLocalId(fci.contact, q.contactIds)];
      } else if uri in modIdx {
        var c := fci.contact;
        var guid := Guid(c);
        q.contactUnsupportedProperties := q.contactUnsupportedProperties[guid := fci.unsupportedProperties];
        q.contactEtags := q.contactEtags[guid := fci.etag];
        if guid in q.contactIds {
          c := c.(id := Some(q.contactIds[guid]));
        }
        modified' := modified + [c];
        assert remoteModifications + modified' == (remoteModifications + modified) + [D.WithLocalId(fci.contact, q.contactIds)];
      }
    }

    /** The tables `contactAddModsComplete` clears, the membership list of
        one addressbook, and the removals collected so far. */
    function RemovalView(addressbookUrl: string): D.Removal
      reads this, q
    {
      D.Removal(q.contactUids, q.contactUris, q.contactEtags, q.contactIds, q.contactUnsupportedProperties,
                GetList(q.addressbookContactGuids, addressbookUrl), remoteRemovals)
    }

    /** src/carddav.cpp:766-803: the deletions of the addressbook, then one
        queued `downsyncComplete`. */
    method ContactAddModsComplete(addressbookUrl: string)
      modifies this`remoteRemovals, this`pending,
               q`contactUids, q`contactUris, q`contactEtags, q`contactIds, q`contactUnsupportedProperties,
               q`addressbookContactGuids
      ensures RemovalView(addressbookUrl) == D.RemovalFold(old(RemovalView(addressbookUrl)), GetInfos(q.serverDeletions, addressbookUrl))
      ensures forall u :: u != addressbookUrl ==> GetList(q.addressbookContactGuids, u) == GetList(old(q.addressbookContactGuids), u)
      ensures pending == old(pending) + [DeferredDownsyncComplete]
    {
      var dels := GetInfos(q.serverDeletions, addressbookUrl);
      var r0 := RemovalView(addressbookUrl);
      var removed := [];
      var i := 0;
      while i < |dels|
        invariant 0 <= i <= |dels|
        invariant RemovalView(addressbookUrl).(removed := remoteRemovals + removed) == D.RemovalFold(r0, dels[..i])
        invariant remoteRemovals == old(remoteRemovals) && pending == old(pending)
        invariant forall u :: u != addressbookUrl ==> GetList(q.addressbookContactGuids, u) == GetList(old(q.addressbookContactGuids), u)
      {
        D.RemovalFoldPrefix(r0, dels, i);
        removed := RemoveLocally(addressbookUrl, dels[i], removed);
        i := i + 1;
      }
      assert dels[..i] == dels;
      remoteRemovals := remoteRemovals + removed;
      pending := pending + [DeferredDownsyncComplete];
    }

    /** src/carddav.cpp:772-792, one deletion row: a guid with a local id
        is forgotten and its contact reported as removed. */
    method RemoveLocally(addressbookUrl: string, info: ContactInformation, removed: seq<Contact>)
      returns (removed': seq<Contact>)
      modifies q`contactUids, q`contactUris, q`contactEtags, q`contactIds, q`contactUnsupportedProperties,
               q`addressbookContactGuids
      ensures RemovalView(addressbookUrl).(removed := remoteRemovals + removed')
        == D.RemovalStep(old(RemovalView(addressbookUrl)).(removed := remoteRemovals + removed), info)
      ensures forall u :: u != addressbookUrl ==> GetList(q.addressbookContactGuids, u) == GetList(old(q.addressbookContactGuids), u)
    {
      removed' := removed;
      var guid := info.guid;
      if guid !in q.contactIds {
        return;
      }
      var doomed := WithGuid(Contact(None, []), guid).(id := Some(q.contactIds[guid]));
      removed' := removed + [doomed];
      q.contactUids := q.contactUids - {guid};
      q.contactUris := q.contactUris - {guid};
      q.contactEtags := q.contactEtags - {guid};
      q.contactIds := q.contactIds - {guid};
      q.contactUnsupportedProperties := q.contactUnsupportedProperties - {guid};
      q.addressbookContactGuids := q.addressbookContactGuids[addressbookUrl := RemoveOne(GetList(q.addressbookContactGuids, addressbookUrl), guid)];
    }

    /** src/carddav.cpp:805-818: one addressbook done; at zero the
        collected changes are emitted. */
    method DownsyncComplete()
      modifies this`downsyncRequests, this`emitted
      ensures downsyncRequests == old(downsyncRequests) - 1
      ensures emitted == old(emitted) + (if downsyncRequests == 0 then [RemoteChanges(remoteAdditions, remoteModifications, remoteRemovals)] else [])
    {
      downsyncRequests := downsyncRequests - 1;
      if downsyncRequests == 0 {
        emitted := emitted + [RemoteChanges(remoteAdditions, remoteModifications, remoteRemovals)];
      }
    }

    /** src/carddav.cpp:961-968. */
    method UpsyncComplete()
      modifies this`upsyncRequests, this`emitted
      ensures upsyncRequests == old(upsyncRequests) - 1
      ensures emitted == old(emitted) + (if upsyncRequests == 0 then [UpsyncCompleted] else [])
    {
      upsyncRequests := upsyncRequests - 1;
      if upsyncRequests == 0 {
        emitted := emitted + [UpsyncCompleted];
      }
    }

    /** The event loop runs the first queued call. With the counter level
        with the outstanding work, `remoteChanges` is emitted exactly when
        the last piece of downsync work completes, and `upsyncCompleted`
        exactly when the last piece of upsync work does. */
    method RunDeferred()
      requires pending != []
      modifies this`pending, this`downsyncRequests, this`upsyncRequests, this`emitted
      ensures pending == old(pending[1..])
      ensures DownsyncSurplus() == old(DownsyncSurplus()) && UpsyncSurplus() == old(UpsyncSurplus())
      ensures old(pending[0]) == DeferredDownsyncComplete ==>
        && upsyncRequests == old(upsyncRequests)
        && downsyncRequests == old(downsyncRequests) - 1
        && emitted == old(emitted) + (if downsyncRequests == 0 then [RemoteChanges(remoteAdditions, remoteModifications, remoteRemovals)] else [])
        && (old(DownsyncSurplus()) == 0 ==> (downsyncRequests == 0 <==> Tokens(requests, pending, DeferredDownsyncComplete) == 0))
      ensures old(pending[0]) == DeferredUpsyncComplete ==>
        && downsyncRequests == old(downsyncRequests)
        && upsyncRequests == old(upsyncRequests) - 1
        && emitted == old(emitted) + (if upsyncRequests == 0 then [UpsyncCompleted] else [])
        && (old(UpsyncSurplus()) == 0 ==> (upsyncRequests == 0 <==> Tokens(requests, pending, DeferredUpsyncComplete) == 0))
    {
      var next := pending[0];
      RunTakesToken(pending, DeferredDownsyncComplete);
      RunTakesToken(pending, DeferredUpsyncComplete);
      pending := pending[1..];
      match next
      case DeferredDownsyncComplete => DownsyncComplete();
      case DeferredUpsyncComplete => UpsyncComplete();
    }

    // -------------------------------------------------------------------
    // Upsync
    // -------------------------------------------------------------------

    /** The state upsync reads and writes; `stopped` says whether the
        current `upsyncUpdates` has given up. */
    function UpsyncView(stopped: bool): U.Upsync
      reads this, q
    {
      U.Upsync(q.contactUids, q.contactUris, q.contactEtags, q.contactIds, q.contactUnsupportedProperties,
               q.addressbookContactGuids, upsyncRequests, requests, pending, emitted, stopped)
    }

    /** src/carddav.cpp:820-930: nothing to send queues one
        `upsyncComplete`; otherwise the additions, the modifications and the
        removals are sent in turn, and the first request that cannot be
        built ends the call. */
    method UpsyncUpdates(addressbookUrl: string, added: seq<Contact>, modified: seq<Contact>, removed: seq<Contact>,
                         uuids: seq<string>, write: Contact -> string)
      requires |uuids| == |added|
      modifies this`upsyncRequests, this`requests, this`pending, this`emitted,
               q`contactUids, q`contactUris, q`contactEtags, q`contactIds, q`addressbookContactGuids, q`contactUnsupportedProperties
      ensures var r := U.UpsyncUpdates(old(UpsyncView(false)), addressbookUrl, q.accountId, added, modified, removed, uuids, write, canBuild);
        UpsyncView(r.stopped) == r
    {
      if added == [] && modified == [] && removed == [] {
        upsyncRequests := upsyncRequests + 1;
        pending := pending + [DeferredUpsyncComplete];
        return;
      }
      var stopped := UploadAdditions(addressbookUrl, added, uuids, write);
      if stopped {
        U.StoppedModificationsDoNothing(UpsyncView(true), addressbookUrl, modified, write, canBuild);
        U.StoppedRemovalsDoNothing(UpsyncView(true), addressbookUrl, removed, canBuild);
        return;
      }
      stopped := UploadModifications(addressbookUrl, modified, write);
      if stopped {
        U.StoppedRemovalsDoNothing(UpsyncView(true), addressbookUrl, removed, canBuild);
        return;
      }
      stopped := UploadRemovals(addressbookUrl, removed);
    }

    method UploadAdditions(addressbookUrl: string, added: seq<Contact>, uuids: seq<string>, write: Contact -> string)
      returns (stopped: bool)
      requires |uuids| == |added|
      modifies this`upsyncRequests, this`requests, this`emitted, q`contactUids, q`contactUris, q`contactIds
      ensures UpsyncView(stopped) == U.AddFold(old(UpsyncView(false)), addressbookUrl, q.accountId, added, uuids, write, canBuild)
    {
      ghost var s0 := UpsyncView(false);
      stopped := false;
      var i := 0;
      while i < |added|
        invariant 0 <= i <= |added|
        invariant UpsyncView(false) == U.AddFold(s0, addressbookUrl, q.accountId, added[..i], uuids[..i], write, canBuild)
      {
        U.AddFoldPrefix(s0, addressbookUrl, q.accountId, added, uuids, write, canBuild, i);
        stopped := UploadAddition(addressbookUrl, added[i], uuids[i], write);
        i := i + 1;
        if stopped {
          U.AddFoldStopped(s0, addressbookUrl, q.accountId, added, uuids, write, canBuild, i);
          return;
        }
      }
      assert added[..i] == added && uuids[..i] == uuids;
    }

    /** src/carddav.cpp:834-863, one addition. */
    method UploadAddition(addressbookUrl: string, c: Contact, uuid: string, write: Contact -> string) returns (stopped: bool)
      modifies this`upsyncRequests, this`requests, this`emitted, q`contactUids, q`contactUris, q`contactIds
      ensures UpsyncView(stopped) == U.AddStep(old(UpsyncView(false)), addressbookUrl, q.accountId, c, uuid, write, canBuild)
    {
      var uid := U.StripUuid(uuid);
      var guid := U.MintedGuid(q.accountId, uid);
      var uri := U.MintedUri(addressbookUrl, uid);
      q.contactUids := q.contactUids[guid := uid];
      q.contactUris := q.contactUris[guid := uri];
      q.contactIds := q.contactIds[guid := U.IdText(c.id)];
      var vcard := converter.ConvertContactToVCard(write(WithGuid(c, uid)), []);
      var sent := Send(AddModRequest(addressbookUrl, uri, "", vcard, guid));
      stopped := !sent;
      if sent {
        upsyncRequests := upsyncRequests + 1;
      }
    }

    method UploadModifications(addressbookUrl: string, modified: seq<Contact>, write: Contact -> string) returns (stopped: bool)
      modifies this`upsyncRequests, this`requests, this`emitted,
               q`contactUids, q`contactUris, q`contactEtags, q`contactUnsupportedProperties
      ensures UpsyncView(stopped) == U.ModFold(old(UpsyncView(false)), addressbookUrl, modified, write, canBuild)
    {
      ghost var s0 := UpsyncView(false);
      stopped := false;
      var i := 0;
      while i < |modified|
        invariant 0 <= i <= |modified|
        invariant UpsyncView(false) == U.ModFold(s0, addressbookUrl, modified[..i], write, canBuild)
      {
        U.ModFoldPrefix(s0, addressbookUrl, modified, write, canBuild, i);
        stopped := UploadModification(addressbookUrl, modified[i], write);
        i := i + 1;
        if stopped {
          U.ModFoldStopped(s0, addressbookUrl, modified, write, canBuild, i);
          return;
        }
      }
      assert modified[..i] == modified;
    }

    /** src/carddav.cpp:866-899, one modification. */
    method UploadModification(addressbookUrl: string, c: Contact, write: Contact -> string) returns (stopped: bool)
      modifies this`upsyncRequests, this`requests, this`emitted,
               q`contactUids, q`contactUris, q`contactEtags, q`contactUnsupportedProperties
      ensures UpsyncView(stopped) == U.ModStep(old(UpsyncView(false)), addressbookUrl, c, write, canBuild)
    {
      stopped := false;
      var guid := Guid(c);
      if guid == "" {
        return;
      }
      var uid := Get(q.contactUids, guid);
      q.contactUids := Touch(q.contactUids, guid);
      if uid == "" {
        return;
      }
      stopped := SendModification(addressbookUrl, c, uid, write);
    }

    /** src/carddav.cpp:881-898, the upload of a modification with a uid. */
    method SendModification(addressbookUrl: string, c: Contact, uid: string, write: Contact -> string)
      returns (stopped: bool)
      modifies this`upsyncRequests, this`requests, this`emitted,
               q`contactUris, q`contactEtags, q`contactUnsupportedProperties
      ensures UpsyncView(stopped) == U.ModSend(old(UpsyncView(false)), addressbookUrl, c, uid, write, canBuild)
    {
      var guid := Guid(c);
      var unsupported := GetList(q.contactUnsupportedProperties, guid);
      q.contactUnsupportedProperties := TouchList(q.contactUnsupportedProperties, guid);
      var vcard := converter.ConvertContactToVCard(write(WithGuid(c, uid)), unsupported);
      var uri, etag := Get(q.contactUris, guid), Get(q.contactEtags, guid);
      q.contactUris, q.contactEtags := Touch(q.contactUris, guid), Touch(q.contactEtags, guid);
      var sent := Send(AddModRequest(addressbookUrl, uri, etag, vcard, guid));
      stopped := !sent;
      if sent {
        upsyncRequests := upsyncRequests + 1;
      }
    }

    method UploadRemovals(addressbookUrl: string, removed: seq<Contact>) returns (stopped: bool)
      modifies this`upsyncRequests, this`requests, this`emitted,
               q`contactUids, q`contactUris, q`contactEtags, q`contactIds, q`addressbookContactGuids
      ensures UpsyncView(stopped) == U.RemoveFold(old(UpsyncView(false)), addressbookUrl, removed, canBuild)
    {
      ghost var s0 := UpsyncView(false);
      stopped := false;
      var i := 0;
      while i < |removed|
        invariant 0 <= i <= |removed|
        invariant UpsyncView(false) == U.RemoveFold(s0, addressbookUrl, removed[..i], canBuild)
      {
        U.RemoveFoldPrefix(s0, addressbookUrl, removed, canBuild, i);
        stopped := UploadRemoval(addressbookUrl, removed[i]);
        i := i + 1;
        if stopped {
          U.RemoveFoldStopped(s0, addressbookUrl, removed, canBuild, i);
          return;
        }
      }
      assert removed[..i] == removed;
    }

    /** src/carddav.cpp:902-925, one removal. */
    method UploadRemoval(addressbookUrl: string, c: Contact) returns (stopped: bool)
      modifies this`upsyncRequests, this`requests, this`emitted,
               q`contactUids, q`contactUris, q`contactEtags, q`contactIds, q`addressbookContactGuids
      ensures UpsyncView(stopped) == U.RemoveStep(old(UpsyncView(false)), addressbookUrl, c, canBuild)
    {
      var guid := Guid(c);
      var uri, etag := Get(q.contactUris, guid), Get(q.contactEtags, guid);
      q.contactUris, q.contactEtags := Touch(q.contactUris, guid), Touch(q.contactEtags, guid);
      var sent := Send(DeletionRequest(addressbookUrl, uri, etag));
      stopped := !sent;
      if !sent {
        return;
      }
      q.contactEtags := q.contactEtags - {guid};
      q.contactUris := q.contactUris - {guid};
      q.contactIds := q.contactIds - {guid};
      q.contactUids := q.contactUids - {guid};
      q.addressbookContactGuids := q.addressbookContactGuids[addressbookUrl := RemoveOne(GetList(q.addressbookContactGuids, addressbookUrl), guid)];
      upsyncRequests := upsyncRequests + 1;
    }

    /** src/carddav.cpp:932-959: a failed upload or deletion emits its
        status; otherwise the etag the server reports for an uploaded
        contact is stored and the upsync counter is brought down at once. */
    method UpsyncResponse(req: Request, reply: Reply)
      requires req in requests && BarrierOf(req) == Some(DeferredUpsyncComplete)
      modifies this`requests, this`emitted, this`upsyncRequests, q`contactEtags
      ensures var r := U.UpsyncResponse(old(UpsyncView(false)), req, reply).0;
        && q.contactEtags == r.etags && requests == r.requests
        && (reply.failed ==> emitted == r.emitted && upsyncRequests == old(upsyncRequests))
        && (!reply.failed ==>
              && upsyncRequests == old(upsyncRequests) - 1
              && emitted == old(emitted) + (if upsyncRequests == 0 then [UpsyncCompleted] else []))
      ensures !reply.failed ==> UpsyncSurplus() == old(UpsyncSurplus())
      ensures !reply.failed && old(UpsyncSurplus()) == 0 ==>
        (upsyncRequests == 0 <==> Tokens(requests, pending, DeferredUpsyncComplete) == 0)
    {
      ReplyTakesToken(requests, req, DeferredUpsyncComplete);
      requests := RemoveOne(requests, req);
      if reply.failed {
        emitted := emitted + [Error(Some(reply.httpStatus))];
        return;
      }
      var guid := if req.AddModRequest? then req.guid else "";
      if guid != "" {
        var etag := FindEtag(reply.headers);
        if etag != "" {
          q.contactEtags := q.contactEtags[guid := etag];
        }
      }
      UpsyncComplete();
    }

    /** The loop over the raw headers of an upsync reply. */
    method FindEtag(headers: seq<Header>) returns (etag: string)
      ensures etag == U.EtagHeader(headers)
    {
      var i := 0;
      while i < |headers|
        invariant 0 <= i <= |headers|
        invariant U.EtagHeader(headers[i..]) == U.EtagHeader(headers)
      {
        assert headers[i..][1..] == headers[i + 1..];
        if Contains(ToLower(headers[i].name), "etag") {
          return headers[i].value;
        }
        i := i + 1;
      }
      return "";
    }

    predicate IndicesInRangeOf(addressbookUrl: string)
      reads q
    {
      D.IndicesInRange(GetIndices(q.serverAdditionIndices, addressbookUrl), GetInfos(q.serverAdditions, addressbookUrl))
    }
  }

  /** Rows that keep their uris keep every index pointing at them. */
  lemma RowsKeepUris(idx: map<string, int>, a: seq<ContactInformation>, b: seq<ContactInformation>)
    requires IndexPoints(idx, a) && |a| == |b|
    requires forall i :: 0 <= i < |a| ==> b[i] == a[i].(guid := b[i].guid)
    ensures IndexPoints(idx, b)
  {
    forall uri | uri in idx ensures b[idx[uri]].uri == uri {
      assert b[idx[uri]] == a[idx[uri]].(guid := b[idx[uri]].guid);
    }
  }
}
