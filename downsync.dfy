/** The downsync half of the engine stated on values (src/carddav.cpp:
    523-818): the per-addressbook choice between a metadata report, a delta
    report and no request; the partition of a report into additions,
    modifications and deletions; the recording of fetched contacts; the
    removal of deleted ones; and the counter that holds `remoteChanges` back
    until every addressbook is done. */
module Downsync {
  import opened Optional
  import opened ParserTypes
  import opened SyncState
  import opened EngineTypes

  // ---------------------------------------------------------------------
  // The per-addressbook decision (downsyncAddressbookContent)
  // ---------------------------------------------------------------------

  /** The part of the engine and syncer state that the decision reads and
      writes. `counter` is `m_downsyncRequests`. */
  datatype Downsync = Downsync(
    defaultAddressbook: string,
    ctags: map<string, string>,
    syncTokens: map<string, string>,
    counter: int,
    requests: seq<Request>,
    pending: seq<Deferred>,
    emitted: seq<EngineSignal>)

  /** How far the counter is ahead of the work that will bring it down. */
  function Surplus(st: Downsync): int
  {
    st.counter - Tokens(st.requests, st.pending, DeferredDownsyncComplete)
  }

  /** A request whose reply ends in `downsyncComplete` (src/carddav.cpp:
      583-596, 612-630): issued and counted, or, when the request generator
      yields no reply, `error()` and nothing counted. */
  function Issue(st: Downsync, req: Request, canBuild: Request -> bool): Downsync
  {
    if canBuild(req) then st.(counter := st.counter + 1, requests := st.requests + [req])
    else st.(emitted := st.emitted + [Error(None)])
  }

  /** An addressbook without changes: counted now and completed by a
      queued call. */
  function Defer(st: Downsync): Downsync
  {
    st.(counter := st.counter + 1, pending := st.pending + [DeferredDownsyncComplete])
  }

  /** src/carddav.cpp:525-578, one addressbook, as written. Both tables are
      read with `operator[]`. With a changed sync token, the token is passed
      to the delta request through the reference `existingSyncToken`, which
      is bound to the table entry that has just been overwritten with the
      new token: the request carries the new token. */
  function AddressbookStep(st: Downsync, info: AddressBookInformation, canBuild: Request -> bool): Downsync
  {
    var url := info.url;
    var st1 := st.(defaultAddressbook := if st.defaultAddressbook == "" then url else st.defaultAddressbook);
    if info.syncToken == "" then
      var existingCtag := Get(st1.ctags, url);
      var ctags := Touch(st1.ctags, url);
      if existingCtag == "" || existingCtag != info.ctag then
        Issue(st1.(ctags := ctags[url := info.ctag]), MetadataRequest(url), canBuild)
      else Defer(st1.(ctags := ctags))
    else
      var existingSyncToken := Get(st1.syncTokens, url);
      var tokens := Touch(st1.syncTokens, url);
      var ctags := if info.ctag != "" then st1.ctags[url := info.ctag] else st1.ctags;
      if existingSyncToken == "" then
        Issue(st1.(ctags := ctags, syncTokens := tokens[url := info.syncToken]), MetadataRequest(url), canBuild)
      else if existingSyncToken != info.syncToken then
        var updated := tokens[url := info.syncToken];
        Issue(st1.(ctags := ctags, syncTokens := updated), DeltaRequest(url, Get(updated, url)), canBuild)
      else Defer(st1.(ctags := ctags, syncTokens := tokens))
  }

  /** The same decision with the delta request carrying the token stored
      before this sync, as the comment at src/carddav.cpp:570 says. */
  function AddressbookStepCorrected(st: Downsync, info: AddressBookInformation, canBuild: Request -> bool): Downsync
  {
    var url := info.url;
    var st1 := st.(defaultAddressbook := if st.defaultAddressbook == "" then url else st.defaultAddressbook);
    if info.syncToken == "" then
      AddressbookStep(st, info, canBuild)
    else
      var existingSyncToken := Get(st1.syncTokens, url);
      var tokens := Touch(st1.syncTokens, url);
      var ctags := if info.ctag != "" then st1.ctags[url := info.ctag] else st1.ctags;
      if existingSyncToken != "" && existingSyncToken != info.syncToken then
        Issue(st1.(ctags := ctags, syncTokens := tokens[url := info.syncToken]), DeltaRequest(url, existingSyncToken), canBuild)
      else AddressbookStep(st, info, canBuild)
  }

  /** `downsyncAddressbookContent(infos)`: the decisions in order. */
  function DownsyncFold(st: Downsync, infos: seq<AddressBookInformation>, canBuild: Request -> bool): Downsync
  {
    if infos == [] then st
    else AddressbookStep(DownsyncFold(st, infos[..|infos| - 1], canBuild), infos[|infos| - 1], canBuild)
  }

  lemma DownsyncFoldPrefix(st: Downsync, infos: seq<AddressBookInformation>, i: nat, canBuild: Request -> bool)
    requires i < |infos|
    ensures DownsyncFold(st, infos[..i + 1], canBuild) == AddressbookStep(DownsyncFold(st, infos[..i], canBuild), infos[i], canBuild)
  {
    assert infos[..i + 1][..i] == infos[..i];
  }

  /** One decision adds one unit of work and counts it, or emits `error()`
      and counts nothing: the surplus does not change. */
  lemma {:induction false} AddressbookStepBalance(st: Downsync, info: AddressBookInformation, canBuild: Request -> bool)
    ensures Surplus(AddressbookStep(st, info, canBuild)) == Surplus(st)
    ensures var r := AddressbookStep(st, info, canBuild);
      (r.counter == st.counter + 1 && r.emitted == st.emitted)
      || (r.counter == st.counter && r.emitted == st.emitted + [Error(None)])
  {
    var url := info.url;
    var st1 := st.(defaultAddressbook := if st.defaultAddressbook == "" then url else st.defaultAddressbook);
    if info.syncToken == "" {
      var existingCtag := Get(st1.ctags, url);
      var ctags := Touch(st1.ctags, url);
      if existingCtag == "" || existingCtag != info.ctag {
        IssueBalance(st1.(ctags := ctags[url := info.ctag]), MetadataRequest(url), canBuild);
      } else {
        DeferBalance(st1.(ctags := ctags));
      }
    } else {
      var existingSyncToken := Get(st1.syncTokens, url);
      var tokens := Touch(st1.syncTokens, url);
      var ctags := if info.ctag != "" then st1.ctags[url := info.ctag] else st1.ctags;
      if existingSyncToken == "" {
        IssueBalance(st1.(ctags := ctags, syncTokens := tokens[url := info.syncToken]), MetadataRequest(url), canBuild);
      } else if existingSyncToken != info.syncToken {
        var updated := tokens[url := info.syncToken];
        IssueBalance(st1.(ctags := ctags, syncTokens := updated), DeltaRequest(url, Get(updated, url)), canBuild);
      } else {
        DeferBalance(st1.(ctags := ctags, syncTokens := tokens));
      }
    }
  }

  /** A request is counted with its token, or not issued at all. */
  lemma IssueBalance(st: Downsync, req: Request, canBuild: Request -> bool)
    requires BarrierOf(req) == Some(DeferredDownsyncComplete)
    ensures var r := Issue(st, req, canBuild);
      && Surplus(r) == Surplus(st)
      && ((r.counter == st.counter + 1 && r.emitted == st.emitted)
          || (r.counter == st.counter && r.emitted == st.emitted + [Error(None)]))
  {
    if canBuild(req) {
      IssueAddsToken(st.requests, req, DeferredDownsyncComplete);
    } else {
    }
  }

  /** A deferred completion is counted with its token. */
  lemma DeferBalance(st: Downsync)
    ensures var r := Defer(st);
      Surplus(r) == Surplus(st) && r.counter == st.counter + 1 && r.emitted == st.emitted
  {
    DeferAddsToken(st.pending, DeferredDownsyncComplete, DeferredDownsyncComplete);
  }

  /** Over all addressbooks of one report the counter rises by exactly the
      work it waits for, and by one per addressbook when every request can
      be built. */
  lemma {:induction false} DownsyncFoldBalance(st: Downsync, infos: seq<AddressBookInformation>, canBuild: Request -> bool)
    ensures Surplus(DownsyncFold(st, infos, canBuild)) == Surplus(st)
    ensures (forall req :: canBuild(req)) ==>
      DownsyncFold(st, infos, canBuild).counter == st.counter + |infos|
      && DownsyncFold(st, infos, canBuild).emitted == st.emitted
  {
    if infos != [] {
      var init := infos[..|infos| - 1];
      DownsyncFoldBalance(st, init, canBuild);
      AddressbookStepBalance(DownsyncFold(st, init, canBuild), infos[|infos| - 1], canBuild);
    }
  }

  /** The first non-empty string of the list, or "". */
  function FirstNonEmpty(s: seq<string>): string
  {
    if s == [] then "" else if s[0] != "" then s[0] else FirstNonEmpty(s[1..])
  }

  function Urls(infos: seq<AddressBookInformation>): (r: seq<string>)
    ensures |r| == |infos| && forall i :: 0 <= i < |infos| ==> r[i] == infos[i].url
  {
    seq(|infos|, i requires 0 <= i < |infos| => infos[i].url)
  }

  lemma {:induction false} FirstNonEmptySnoc(s: seq<string>, x: string)
    ensures FirstNonEmpty(s + [x]) == if FirstNonEmpty(s) != "" then FirstNonEmpty(s) else x
  {
    if s == [] {
      assert s + [x] == [x];
      assert [x][1..] == [];
    } else {
      assert (s + [x])[1..] == s[1..] + [x];
      FirstNonEmptySnoc(s[1..], x);
    }
  }

  /** `m_defaultAddressbook` is set only while it is empty: after a report
      it is the first non-empty URL among the old value and the
      addressbooks' URLs in order. */
  lemma StepKeepsDefault(st: Downsync, info: AddressBookInformation, canBuild: Request -> bool)
    ensures AddressbookStep(st, info, canBuild).defaultAddressbook
      == if st.defaultAddressbook == "" then info.url else st.defaultAddressbook
  {
  }

  lemma {:induction false} DefaultAddressbookRule(st: Downsync, infos: seq<AddressBookInformation>, canBuild: Request -> bool)
    ensures DownsyncFold(st, infos, canBuild).defaultAddressbook == FirstNonEmpty([st.defaultAddressbook] + Urls(infos))
  {
    if infos == [] {
      assert [st.defaultAddressbook] + Urls(infos) == [st.defaultAddressbook];
      assert [st.defaultAddressbook][1..] == [];
    } else {
      var init := infos[..|infos| - 1];
      DefaultAddressbookRule(st, init, canBuild);
      StepKeepsDefault(DownsyncFold(st, init, canBuild), infos[|infos| - 1], canBuild);
      UrlsSnoc(st.defaultAddressbook, infos);
      FirstNonEmptySnoc([st.defaultAddressbook] + Urls(init), infos[|infos| - 1].url);
    }
  }

  lemma UrlsSnoc(d: string, infos: seq<AddressBookInformation>)
    requires infos != []
    ensures [d] + Urls(infos) == ([d] + Urls(infos[..|infos| - 1])) + [infos[|infos| - 1].url]
  {
    assert Urls(infos) == Urls(infos[..|infos| - 1]) + [infos[|infos| - 1].url];
  }

  /** src/carddav.cpp:533-551: without a sync token the ctag decides. A
      first-seen or changed ctag is stored and a metadata report requested;
      an equal one queues the completion. */
  lemma CtagDecision(st: Downsync, info: AddressBookInformation, canBuild: Request -> bool)
    requires info.syncToken == ""
    ensures var r, url, old_ := AddressbookStep(st, info, canBuild), info.url, Get(st.ctags, info.url);
      && Get(r.ctags, url) == info.ctag
      && r.syncTokens == st.syncTokens
      && (old_ == "" || old_ != info.ctag ==> r == Issue(r.(counter := st.counter, requests := st.requests, emitted := st.emitted), MetadataRequest(url), canBuild) && r.pending == st.pending)
      && (old_ != "" && old_ == info.ctag ==> r.requests == st.requests && r.pending == st.pending + [DeferredDownsyncComplete])
  {
  }

  /** src/carddav.cpp:552-578: with a sync token the ctag is stored only
      when non-empty, the new token is always stored, and the old token
      decides: none means a metadata report, a different one a delta
      report, an equal one the queued completion. */
  lemma TokenDecision(st: Downsync, info: AddressBookInformation, canBuild: Request -> bool)
    requires info.syncToken != ""
    ensures var r, url, old_ := AddressbookStep(st, info, canBuild), info.url, Get(st.syncTokens, info.url);
      && Get(r.ctags, url) == (if info.ctag != "" then info.ctag else Get(st.ctags, url))
      && Get(r.syncTokens, url) == info.syncToken
      && (old_ == "" ==> r.pending == st.pending && r.requests == (if canBuild(MetadataRequest(url)) then st.requests + [MetadataRequest(url)] else st.requests))
      && (old_ != "" && old_ != info.syncToken ==> r.pending == st.pending && r.requests == (if canBuild(DeltaRequest(url, info.syncToken)) then st.requests + [DeltaRequest(url, info.syncToken)] else st.requests))
      && (old_ == info.syncToken ==> r.requests == st.requests && r.pending == st.pending + [DeferredDownsyncComplete])
  {
  }

  /** A decision touches only its own addressbook's entries. */
  lemma DecisionIsLocal(st: Downsync, info: AddressBookInformation, canBuild: Request -> bool, u: string)
    requires u != info.url
    ensures Get(AddressbookStep(st, info, canBuild).ctags, u) == Get(st.ctags, u)
    ensures Get(AddressbookStep(st, info, canBuild).syncTokens, u) == Get(st.syncTokens, u)
  {
  }

  /** The token a delta report is asked with is never the stored one: an
      addressbook whose token moved from `t0` to `t1` is asked for the
      changes since `t1`, and the changes between `t0` and `t1` are not
      fetched. */
  lemma DeltaAskedWithNewToken(st: Downsync, info: AddressBookInformation, canBuild: Request -> bool)
    requires info.syncToken != "" && Get(st.syncTokens, info.url) != "" && Get(st.syncTokens, info.url) != info.syncToken
    requires canBuild(DeltaRequest(info.url, info.syncToken))
    ensures var r := AddressbookStep(st, info, canBuild);
      && r.requests == st.requests + [DeltaRequest(info.url, info.syncToken)]
      && DeltaRequest(info.url, Get(st.syncTokens, info.url)) !in r.requests[|st.requests|..]
  {
    var r := AddressbookStep(st, info, canBuild);
    assert r.requests[|st.requests|..] == [DeltaRequest(info.url, info.syncToken)];
  }

  /** Corrected, the delta report is asked with the stored token and
      everything else comes out as before. */
  lemma CorrectedDeltaUsesStoredToken(st: Downsync, info: AddressBookInformation, canBuild: Request -> bool)
    requires info.syncToken != "" && Get(st.syncTokens, info.url) != "" && Get(st.syncTokens, info.url) != info.syncToken
    requires canBuild(DeltaRequest(info.url, Get(st.syncTokens, info.url)))
    ensures var r, w := AddressbookStepCorrected(st, info, canBuild), AddressbookStep(st, info, canBuild);
      && r.requests == st.requests + [DeltaRequest(info.url, Get(st.syncTokens, info.url))]
      && r.ctags == w.ctags && r.syncTokens == w.syncTokens && r.counter == st.counter + 1
      && r.pending == w.pending && r.defaultAddressbook == w.defaultAddressbook
      && Get(r.syncTokens, info.url) == info.syncToken
  {
  }

  // ---------------------------------------------------------------------
  // Falling back from a failed delta report (immediateDeltaResponse)
  // ---------------------------------------------------------------------

  /** src/carddav.cpp:606-613, as written: the failed delta request's reply
      is handled and a metadata report is issued through
      `fetchContactMetadata`, which counts it once more. */
  function FallBack(st: Downsync, req: Request, canBuild: Request -> bool): Downsync
    requires req.DeltaRequest?
  {
    Issue(st.(requests := RemoveOne(st.requests, req)), MetadataRequest(req.addressbookUrl), canBuild)
  }

  /** The fall-back with the delta request's count handed over to the
      metadata request instead of adding a second one. */
  function FallBackCorrected(st: Downsync, req: Request, canBuild: Request -> bool): Downsync
    requires req.DeltaRequest?
  {
    var m := MetadataRequest(req.addressbookUrl);
    var st1 := st.(requests := RemoveOne(st.requests, req));
    if canBuild(m) then st1.(requests := st1.requests + [m])
    else st1.(emitted := st1.emitted + [Error(None)], counter := st1.counter - 1)
  }

  /** As written the fall-back raises the surplus by one: the metadata
      request is counted while the delta request's count is never
      released. Corrected, the surplus is kept. */
  lemma FallBackLeaks(st: Downsync, req: Request, canBuild: Request -> bool)
    requires req in st.requests && req.DeltaRequest?
    ensures canBuild(MetadataRequest(req.addressbookUrl)) ==> Surplus(FallBack(st, req, canBuild)) == Surplus(st) + 1
    ensures Surplus(FallBackCorrected(st, req, canBuild)) == Surplus(st)
  {
    var d := DeferredDownsyncComplete;
    ReplyTakesToken(st.requests, req, d);
    IssueAddsToken(RemoveOne(st.requests, req), MetadataRequest(req.addressbookUrl), d);
  }

  /** With the surplus at one, `remoteChanges` is never emitted: after every
      outstanding piece of work has completed the counter stands at 1. */
  lemma FallBackBlocksRemoteChanges(st: Downsync, req: Request, canBuild: Request -> bool)
    requires req in st.requests && req.DeltaRequest? && Surplus(st) == 0
    requires canBuild(MetadataRequest(req.addressbookUrl))
    ensures var r := FallBack(st, req, canBuild);
      var t := Tokens(r.requests, r.pending, DeferredDownsyncComplete);
      r.counter == t + 1 && Drain(r.counter, t) == (1, 0)
  {
    FallBackLeaks(st, req, canBuild);
    var r := FallBack(st, req, canBuild);
    DrainSignalsOnce(r.counter, Tokens(r.requests, r.pending, DeferredDownsyncComplete));
  }

  /** Corrected, the counter stays level with the outstanding work, so
      completing all of it brings the counter to zero and emits
      `remoteChanges` exactly once. */
  lemma FallBackCorrectedSignals(st: Downsync, req: Request, canBuild: Request -> bool)
    requires req in st.requests && req.DeltaRequest? && Surplus(st) == 0
    ensures var r := FallBackCorrected(st, req, canBuild);
      var t := Tokens(r.requests, r.pending, DeferredDownsyncComplete);
      r.counter == t && (t > 0 ==> Drain(r.counter, t) == (0, 1))
  {
    FallBackLeaks(st, req, canBuild);
    var r := FallBackCorrected(st, req, canBuild);
    DrainSignalsOnce(r.counter, Tokens(r.requests, r.pending, DeferredDownsyncComplete));
  }

  // ---------------------------------------------------------------------
  // The partition of a report (fetchContacts)
  // ---------------------------------------------------------------------

  /** One addressbook's server-change lists and uri indices, and the uris
      queued for the multiget request. */
  datatype Partition = Partition(
    additions: seq<ContactInformation>,
    modifications: seq<ContactInformation>,
    deletions: seq<ContactInformation>,
    additionIndices: map<string, int>,
    modificationIndices: map<string, int>,
    fetch: seq<string>)

  /** src/carddav.cpp:661-677, one row. */
  function PartitionStep(p: Partition, info: ContactInformation): Partition
  {
    match info.modType
    case Addition =>
      p.(additionIndices := p.additionIndices[info.uri := |p.additions|],
         additions := p.additions + [info], fetch := p.fetch + [info.uri])
    case Modification =>
      p.(modificationIndices := p.modificationIndices[info.uri := |p.modifications|],
         modifications := p.modifications + [info], fetch := p.fetch + [info.uri])
    case Deletion => p.(deletions := p.deletions + [info])
    case Uninitialized => p
  }

  function PartitionFold(p: Partition, infos: seq<ContactInformation>): Partition
  {
    if infos == [] then p else PartitionStep(PartitionFold(p, infos[..|infos| - 1]), infos[|infos| - 1])
  }

  lemma PartitionFoldPrefix(p: Partition, infos: seq<ContactInformation>, i: nat)
    requires i < |infos|
    ensures PartitionFold(p, infos[..i + 1]) == PartitionStep(PartitionFold(p, infos[..i]), infos[i])
  {
    assert infos[..i + 1][..i] == infos[..i];
  }

  /** The rows of one change type, in order. */
  function OfType(infos: seq<ContactInformation>, t: ModificationType): seq<ContactInformation>
  {
    if infos == [] then []
    else OfType(infos[..|infos| - 1], t) + (if infos[|infos| - 1].modType == t then [infos[|infos| - 1]] else [])
  }

  /** The uris of the additions and modifications, in order. */
  function FetchedUris(infos: seq<ContactInformation>): seq<string>
  {
    if infos == [] then []
    else
      var last := infos[|infos| - 1];
      FetchedUris(infos[..|infos| - 1]) + (if last.modType == Addition || last.modType == Modification then [last.uri] else [])
  }

  /** Each list receives exactly the rows of its type, in order, the fetch
      list exactly the additions' and modifications' uris, and the
      `Uninitialized` rows go nowhere. */
  lemma {:induction false} PartitionContents(p: Partition, infos: seq<ContactInformation>)
    ensures var r := PartitionFold(p, infos);
      && r.additions == p.additions + OfType(infos, Addition)
      && r.modifications == p.modifications + OfType(infos, Modification)
      && r.deletions == p.deletions + OfType(infos, Deletion)
      && r.fetch == p.fetch + FetchedUris(infos)
    ensures |OfType(infos, Addition)| + |OfType(infos, Modification)| + |OfType(infos, Deletion)|
      + |OfType(infos, Uninitialized)| == |infos|
  {
    if infos != [] {
      PartitionContents(p, infos[..|infos| - 1]);
    }
  }

  /** The index maps stay true to the lists: every indexed uri names the
      position of a row with that uri, and every addition or modification
      of the report is indexed. */
  lemma {:induction false} PartitionIndices(p: Partition, infos: seq<ContactInformation>)
    requires IndexPoints(p.additionIndices, p.additions) && IndexPoints(p.modificationIndices, p.modifications)
    ensures var r := PartitionFold(p, infos);
      IndexPoints(r.additionIndices, r.additions) && IndexPoints(r.modificationIndices, r.modifications)
    ensures var r := PartitionFold(p, infos);
      forall i :: 0 <= i < |infos| ==>
        (infos[i].modType == Addition ==> infos[i].uri in r.additionIndices)
        && (infos[i].modType == Modification ==> infos[i].uri in r.modificationIndices)
  {
    if infos != [] {
      var init, last := infos[..|infos| - 1], infos[|infos| - 1];
      PartitionIndices(p, init);
      var q := PartitionFold(p, init);
      var r := PartitionStep(q, last);
      assert r.additionIndices.Keys >= q.additionIndices.Keys;
      assert r.modificationIndices.Keys >= q.modificationIndices.Keys;
      forall i | 0 <= i < |infos| - 1
        ensures (infos[i].modType == Addition ==> infos[i].uri in r.additionIndices)
        ensures (infos[i].modType == Modification ==> infos[i].uri in r.modificationIndices)
      {
        assert infos[i] == init[i];
      }
    }
  }

  // ---------------------------------------------------------------------
  // Recording the fetched contacts (contactsResponse)
  // ---------------------------------------------------------------------

  /** The tables `contactsResponse` writes: the addressbook's addition list
      and membership list, the etag, uri and unsupported-property tables,
      and the contacts it reports. */
  datatype Recorded = Recorded(
    additions: seq<ContactInformation>,
    members: seq<string>,
    etags: map<string, string>,
    uris: map<string, string>,
    unsupported: map<string, seq<string>>,
    added: seq<Contact>,
    modified: seq<Contact>)

  /** A fetched contact with the local database id recorded for its guid,
      when there is one. */
  function WithLocalId(c: Contact, ids: map<string, string>): (r: Contact)
    ensures Guid(r) == Guid(c) && r.details == c.details
    ensures r.id == if Guid(c) in ids then Some(ids[Guid(c)]) else c.id
  {
    if Guid(c) in ids then c.(id := Some(ids[Guid(c)])) else c
  }

  predicate IndicesInRange(idx: map<string, int>, rows: seq<ContactInformation>)
  {
    forall uri :: uri in idx ==> 0 <= idx[uri] < |rows|
  }

  /** src/carddav.cpp:723-754, one fetched contact under its uri. */
  function RecordStep(st: Recorded, uri: string, fci: FullContactInformation,
                      addIdx: map<string, int>, modIdx: map<string, int>, ids: map<string, string>): (r: Recorded)
    requires IndicesInRange(addIdx, st.additions)
    ensures |r.additions| == |st.additions|
  {
    var guid := Guid(fci.contact);
    if uri in addIdx then
      var i := addIdx[uri];
      st.(additions := st.additions[i := st.additions[i].(guid := guid)],
          etags := st.etags[guid := fci.etag],
          uris := st.uris[guid := uri],
          unsupported := st.unsupported[guid := fci.unsupportedProperties],
          members := st.members + [guid],
          added := st.added + [WithLocalId(fci.contact, ids)])
    else if uri in modIdx then
      st.(unsupported := st.unsupported[guid := fci.unsupportedProperties],
          etags := st.etags[guid := fci.etag],
          modified := st.modified + [WithLocalId(fci.contact, ids)])
    else st
  }

  /** The fetched contacts in the order of their uris. */
  function RecordFold(st: Recorded, keys: seq<string>, addMods: map<string, FullContactInformation>,
                      addIdx: map<string, int>, modIdx: map<string, int>, ids: map<string, string>): (r: Recorded)
    requires IndicesInRange(addIdx, st.additions)
    requires forall k :: k in keys ==> k in addMods
    ensures |r.additions| == |st.additions|
  {
    if keys == [] then st
    else
      var q := RecordFold(st, keys[..|keys| - 1], addMods, addIdx, modIdx, ids);
      RecordStep(q, keys[|keys| - 1], addMods[keys[|keys| - 1]], addIdx, modIdx, ids)
  }

  lemma RecordFoldPrefix(st: Recorded, keys: seq<string>, i: nat, addMods: map<string, FullContactInformation>,
                         addIdx: map<string, int>, modIdx: map<string, int>, ids: map<string, string>)
    requires IndicesInRange(addIdx, st.additions)
    requires forall k :: k in keys ==> k in addMods
    requires i < |keys|
    ensures RecordFold(st, keys[..i + 1], addMods, addIdx, modIdx, ids)
      == RecordStep(RecordFold(st, keys[..i], addMods, addIdx, modIdx, ids), keys[i], addMods[keys[i]], addIdx, modIdx, ids)
  {
    assert keys[..i + 1][..i] == keys[..i];
  }

  /** The contacts reported as added and as modified: those whose uri is
      indexed as an addition, and those indexed only as a modification. */
  function AddedOf(keys: seq<string>, addMods: map<string, FullContactInformation>,
                   addIdx: map<string, int>, ids: map<string, string>): seq<Option<Contact>>
    requires forall k :: k in keys ==> k in addMods
  {
    seq(|keys|, i requires 0 <= i < |keys| =>
      if keys[i] in addIdx then Some(WithLocalId(addMods[keys[i]].contact, ids)) else None)
  }

  function ModifiedOf(keys: seq<string>, addMods: map<string, FullContactInformation>,
                      addIdx: map<string, int>, modIdx: map<string, int>, ids: map<string, string>): seq<Option<Contact>>
    requires forall k :: k in keys ==> k in addMods
  {
    seq(|keys|, i requires 0 <= i < |keys| =>
      if keys[i] !in addIdx && keys[i] in modIdx then Some(WithLocalId(addMods[keys[i]].contact, ids)) else None)
  }

  /** The guids of the fetched contacts listed under `keys`. */
  function FetchedGuids(keys: seq<string>, addMods: map<string, FullContactInformation>): set<string>
    requires forall k :: k in keys ==> k in addMods
  {
    set k | k in keys :: Guid(addMods[k].contact)
  }

  /** The guids appended to the membership list: those of the additions. */
  function AddedGuids(keys: seq<string>, addMods: map<string, FullContactInformation>, addIdx: map<string, int>): seq<Option<string>>
    requires forall k :: k in keys ==> k in addMods
  {
    seq(|keys|, i requires 0 <= i < |keys| =>
      if keys[i] in addIdx then Some(Guid(addMods[keys[i]].contact)) else None)
  }

  /** One fetched addition fills in its row's guid and records the etag,
      uri and unsupported properties under that guid and the guid as a
      member; a modification records the etag and unsupported properties
      only; a contact under an unknown uri is ignored. */
  lemma RecordStepEffect(st: Recorded, uri: string, fci: FullContactInformation,
                         addIdx: map<string, int>, modIdx: map<string, int>, ids: map<string, string>)
    requires IndicesInRange(addIdx, st.additions)
    ensures var r, g := RecordStep(st, uri, fci, addIdx, modIdx, ids), Guid(fci.contact);
      && r.added == st.added + (if uri in addIdx then [WithLocalId(fci.contact, ids)] else [])
      && r.modified == st.modified + (if uri !in addIdx && uri in modIdx then [WithLocalId(fci.contact, ids)] else [])
      && r.members == st.members + (if uri in addIdx then [g] else [])
      && (uri in addIdx ==>
            r.additions[addIdx[uri]].guid == g
            && Get(r.etags, g) == fci.etag && Get(r.uris, g) == uri
            && GetList(r.unsupported, g) == fci.unsupportedProperties
            && r.members == st.members + [g] && r.modified == st.modified)
      && (uri !in addIdx && uri in modIdx ==>
            r.additions == st.additions && r.members == st.members && r.uris == st.uris
            && Get(r.etags, g) == fci.etag && GetList(r.unsupported, g) == fci.unsupportedProperties
            && r.added == st.added)
      && (uri !in addIdx && uri !in modIdx ==> r == st)
  {
  }

  lemma AddedOfSnoc(keys: seq<string>, addMods: map<string, FullContactInformation>,
                    addIdx: map<string, int>, modIdx: map<string, int>, ids: map<string, string>)
    requires keys != [] && forall k :: k in keys ==> k in addMods
    ensures var init, k := keys[..|keys| - 1], keys[|keys| - 1];
      && AddedOf(keys, addMods, addIdx, ids) == AddedOf(init, addMods, addIdx, ids)
           + [if k in addIdx then Some(WithLocalId(addMods[k].contact, ids)) else None]
      && ModifiedOf(keys, addMods, addIdx, modIdx, ids) == ModifiedOf(init, addMods, addIdx, modIdx, ids)
           + [if k !in addIdx && k in modIdx then Some(WithLocalId(addMods[k].contact, ids)) else None]
      && AddedGuids(keys, addMods, addIdx) == AddedGuids(init, addMods, addIdx)
           + [if k in addIdx then Some(Guid(addMods[k].contact)) else None]
  {
    var init := keys[..|keys| - 1];
    assert forall i :: 0 <= i < |init| ==> init[i] == keys[i];
  }

  /** Recording reports as added exactly the contacts under uris indexed as
      additions, in uri order, each with its local id where one is known. */
  lemma {:induction false} RecordFoldAdded(st: Recorded, keys: seq<string>, addMods: map<string, FullContactInformation>,
                        addIdx: map<string, int>, modIdx: map<string, int>, ids: map<string, string>)
    requires IndicesInRange(addIdx, st.additions)
    requires forall k :: k in keys ==> k in addMods
    ensures RecordFold(st, keys, addMods, addIdx, modIdx, ids).added == st.added + Somes(AddedOf(keys, addMods, addIdx, ids))
  {
    if keys != [] {
      var init := keys[..|keys| - 1];
      RecordFoldAdded(st, init, addMods, addIdx, modIdx, ids);
      var q := RecordFold(st, init, addMods, addIdx, modIdx, ids);
      RecordStepEffect(q, keys[|keys| - 1], addMods[keys[|keys| - 1]], addIdx, modIdx, ids);
      AddedOfSnoc(keys, addMods, addIdx, modIdx, ids);
      var a := AddedOf(keys, addMods, addIdx, ids);
      SomesSnoc(AddedOf(init, addMods, addIdx, ids), a[|keys| - 1]);
    }
  }

  /** Recording reports as modified exactly the contacts under uris indexed
      only as modifications, each with its local id where one is known. */
  lemma {:induction false} RecordFoldModified(st: Recorded, keys: seq<string>, addMods: map<string, FullContactInformation>,
                        addIdx: map<string, int>, modIdx: map<string, int>, ids: map<string, string>)
    requires IndicesInRange(addIdx, st.additions)
    requires forall k :: k in keys ==> k in addMods
    ensures RecordFold(st, keys, addMods, addIdx, modIdx, ids).modified == st.modified + Somes(ModifiedOf(keys, addMods, addIdx, modIdx, ids))
  {
    if keys != [] {
      var init := keys[..|keys| - 1];
      RecordFoldModified(st, init, addMods, addIdx, modIdx, ids);
      var q := RecordFold(st, init, addMods, addIdx, modIdx, ids);
      RecordStepEffect(q, keys[|keys| - 1], addMods[keys[|keys| - 1]], addIdx, modIdx, ids);
      AddedOfSnoc(keys, addMods, addIdx, modIdx, ids);
      var a := ModifiedOf(keys, addMods, addIdx, modIdx, ids);
      SomesSnoc(ModifiedOf(init, addMods, addIdx, modIdx, ids), a[|keys| - 1]);
    }
  }

  /** Recording appends exactly the additions' guids to the addressbook's
      membership list. */
  lemma {:induction false} RecordFoldMembers(st: Recorded, keys: seq<string>, addMods: map<string, FullContactInformation>,
                        addIdx: map<string, int>, modIdx: map<string, int>, ids: map<string, string>)
    requires IndicesInRange(addIdx, st.additions)
    requires forall k :: k in keys ==> k in addMods
    ensures RecordFold(st, keys, addMods, addIdx, modIdx, ids).members == st.members + Somes(AddedGuids(keys, addMods, addIdx))
  {
    if keys != [] {
      var init := keys[..|keys| - 1];
      RecordFoldMembers(st, init, addMods, addIdx, modIdx, ids);
      var q := RecordFold(st, init, addMods, addIdx, modIdx, ids);
      RecordStepEffect(q, keys[|keys| - 1], addMods[keys[|keys| - 1]], addIdx, modIdx, ids);
      AddedOfSnoc(keys, addMods, addIdx, modIdx, ids);
      var a := AddedGuids(keys, addMods, addIdx);
      SomesSnoc(AddedGuids(init, addMods, addIdx), a[|keys| - 1]);
    }
  }

  /** Recording keeps every addition row's uri, type and etag (only its
      guid is filled in), so the index maps stay true, and changes the
      etag, uri and unsupported-property tables only under the guids of
      fetched contacts. */
  lemma {:induction false} RecordFoldFrame(st: Recorded, keys: seq<string>, addMods: map<string, FullContactInformation>,
                                           addIdx: map<string, int>, modIdx: map<string, int>, ids: map<string, string>)
    requires IndicesInRange(addIdx, st.additions)
    requires forall k :: k in keys ==> k in addMods
    ensures var r := RecordFold(st, keys, addMods, addIdx, modIdx, ids);
      forall i :: 0 <= i < |st.additions| ==> r.additions[i] == st.additions[i].(guid := r.additions[i].guid)
    ensures var r := RecordFold(st, keys, addMods, addIdx, modIdx, ids);
      forall g :: g !in FetchedGuids(keys, addMods) ==>
        Get(r.etags, g) == Get(st.etags, g) && Get(r.uris, g) == Get(st.uris, g)
        && GetList(r.unsupported, g) == GetList(st.unsupported, g)
  {
    RecordFoldKeepsRows(st, keys, addMods, addIdx, modIdx, ids);
    RecordFoldKeepsOthers(st, keys, addMods, addIdx, modIdx, ids);
  }

  lemma RecordStepKeepsRows(st: Recorded, uri: string, fci: FullContactInformation,
                            addIdx: map<string, int>, modIdx: map<string, int>, ids: map<string, string>)
    requires IndicesInRange(addIdx, st.additions)
    ensures var r := RecordStep(st, uri, fci, addIdx, modIdx, ids);
      forall i :: 0 <= i < |st.additions| ==> r.additions[i] == st.additions[i].(guid := r.additions[i].guid)
  {
    if uri in addIdx {
    } else {
    }
  }

  lemma {:induction false} RecordFoldKeepsRows(st: Recorded, keys: seq<string>, addMods: map<string, FullContactInformation>,
                                               addIdx: map<string, int>, modIdx: map<string, int>, ids: map<string, string>)
    requires IndicesInRange(addIdx, st.additions)
    requires forall k :: k in keys ==> k in addMods
    ensures var r := RecordFold(st, keys, addMods, addIdx, modIdx, ids);
      forall i :: 0 <= i < |st.additions| ==> r.additions[i] == st.additions[i].(guid := r.additions[i].guid)
  {
    if keys != [] {
      var init, k := keys[..|keys| - 1], keys[|keys| - 1];
      RecordFoldKeepsRows(st, init, addMods, addIdx, modIdx, ids);
      RecordStepKeepsRows(RecordFold(st, init, addMods, addIdx, modIdx, ids), k, addMods[k], addIdx, modIdx, ids);
    }
  }

  lemma RecordStepKeepsOthers(st: Recorded, uri: string, fci: FullContactInformation,
                              addIdx: map<string, int>, modIdx: map<string, int>, ids: map<string, string>)
    requires IndicesInRange(addIdx, st.additions)
    ensures var r := RecordStep(st, uri, fci, addIdx, modIdx, ids);
      forall g :: g != Guid(fci.contact) ==>
        Get(r.etags, g) == Get(st.etags, g) && Get(r.uris, g) == Get(st.uris, g)
        && GetList(r.unsupported, g) == GetList(st.unsupported, g)
  {
    if uri in addIdx {
    } else {
    }
  }

  lemma {:induction false} RecordFoldKeepsOthers(st: Recorded, keys: seq<string>, addMods: map<string, FullContactInformation>,
                                                 addIdx: map<string, int>, modIdx: map<string, int>, ids: map<string, string>)
    requires IndicesInRange(addIdx, st.additions)
    requires forall k :: k in keys ==> k in addMods
    ensures var r := RecordFold(st, keys, addMods, addIdx, modIdx, ids);
      forall g :: g !in FetchedGuids(keys, addMods) ==>
        Get(r.etags, g) == Get(st.etags, g) && Get(r.uris, g) == Get(st.uris, g)
        && GetList(r.unsupported, g) == GetList(st.unsupported, g)
  {
    if keys != [] {
      var init, k := keys[..|keys| - 1], keys[|keys| - 1];
      RecordFoldKeepsOthers(st, init, addMods, addIdx, modIdx, ids);
      RecordStepKeepsOthers(RecordFold(st, init, addMods, addIdx, modIdx, ids), k, addMods[k], addIdx, modIdx, ids);
      assert FetchedGuids(keys, addMods) == FetchedGuids(init, addMods) + {Guid(addMods[k].contact)};
    }
  }

  // ---------------------------------------------------------------------
  // Removing the deleted contacts (contactAddModsComplete)
  // ---------------------------------------------------------------------

  /** The tables `contactAddModsComplete` clears, the addressbook's
      membership list, and the contacts it reports as removed. */
  datatype Removal = Removal(
    uids: map<string, string>,
    uris: map<string, string>,
    etags: map<string, string>,
    ids: map<string, string>,
    unsupported: map<string, seq<string>>,
    members: seq<string>,
    removed: seq<Contact>)

  /** The contact reported for a removal: only its guid and its local id. */
  function Doomed(guid: string, id: string): (c: Contact)
    ensures Guid(c) == guid && c.id == Some(id)
  {
    WithGuid(Contact(None, []), guid).(id := Some(id))
  }

  /** src/carddav.cpp:772-792, one deletion row: a guid without a local id
      is skipped; otherwise the contact is reported and every table entry
      of the guid is removed. */
  function RemovalStep(st: Removal, info: ContactInformation): Removal
  {
    var g := info.guid;
    if g !in st.ids then st
    else
      Removal(st.uids - {g}, st.uris - {g}, st.etags - {g}, st.ids - {g}, st.unsupported - {g},
              RemoveOne(st.members, g), st.removed + [Doomed(g, st.ids[g])])
  }

  function RemovalFold(st: Removal, dels: seq<ContactInformation>): Removal
  {
    if dels == [] then st else RemovalStep(RemovalFold(st, dels[..|dels| - 1]), dels[|dels| - 1])
  }

  lemma RemovalFoldPrefix(st: Removal, dels: seq<ContactInformation>, i: nat)
    requires i < |dels|
    ensures RemovalFold(st, dels[..i + 1]) == RemovalStep(RemovalFold(st, dels[..i]), dels[i])
  {
    assert dels[..i + 1][..i] == dels[..i];
  }

  /** The guids of the deletion rows that have a local id. */
  function DoomedGuids(dels: seq<ContactInformation>, ids: map<string, string>): (d: set<string>)
    ensures d <= ids.Keys
  {
    if dels == [] then {}
    else DoomedGuids(dels[..|dels| - 1], ids) + (if dels[|dels| - 1].guid in ids then {dels[|dels| - 1].guid} else {})
  }

  lemma MinusOne<V>(m: map<string, V>, a: set<string>, g: string)
    ensures (m - a) - {g} == m - (a + {g})
  {
  }

  lemma DoomedGuidsSnoc(dels: seq<ContactInformation>, ids: map<string, string>)
    requires dels != []
    ensures var g := dels[|dels| - 1].guid;
      DoomedGuids(dels, ids) == DoomedGuids(dels[..|dels| - 1], ids) + (if g in ids then {g} else {})
  {
  }

  lemma {:induction false} RemovalFoldIds(st: Removal, dels: seq<ContactInformation>)
    ensures RemovalFold(st, dels).ids == st.ids - DoomedGuids(dels, st.ids)
  {
    if dels != [] {
      var init, g := dels[..|dels| - 1], dels[|dels| - 1].guid;
      RemovalFoldIds(st, init);
      var q, d0 := RemovalFold(st, init), DoomedGuids(init, st.ids);
      DoomedGuidsSnoc(dels, st.ids);
      assert RemovalFold(st, dels) == RemovalStep(q, dels[|dels| - 1]);
      if g in q.ids {
        assert g in st.ids && g !in d0;
        MinusOne(st.ids, d0, g);
      } else {
        assert DoomedGuids(dels, st.ids) == d0;
      }
    }
  }

  /** After the deletions every table has lost exactly the entries of the
      guids with a local id; guids without a local id remain. */
  lemma {:induction false} RemovalFoldForgets(st: Removal, dels: seq<ContactInformation>)
    ensures var r, d := RemovalFold(st, dels), DoomedGuids(dels, st.ids);
      && r.uids == st.uids - d && r.uris == st.uris - d && r.etags == st.etags - d
      && r.ids == st.ids - d && r.unsupported == st.unsupported - d
  {
    if dels != [] {
      var init, g := dels[..|dels| - 1], dels[|dels| - 1].guid;
      RemovalFoldForgets(st, init);
      var q, d0 := RemovalFold(st, init), DoomedGuids(init, st.ids);
      DoomedGuidsSnoc(dels, st.ids);
      assert RemovalFold(st, dels) == RemovalStep(q, dels[|dels| - 1]);
      if g in q.ids {
        assert g in st.ids && g !in d0;
        MinusOne(st.uids, d0, g);
        MinusOne(st.uris, d0, g);
        MinusOne(st.etags, d0, g);
        MinusOne(st.ids, d0, g);
        MinusOne(st.unsupported, d0, g);
      } else {
        assert DoomedGuids(dels, st.ids) == d0;
      }
    }
  }

  /** The membership list loses one occurrence of each guid with a local
      id, and nothing else. */
  lemma {:induction false} RemovalFoldMembers(st: Removal, dels: seq<ContactInformation>)
    ensures multiset(RemovalFold(st, dels).members) == multiset(st.members) - multiset(DoomedGuids(dels, st.ids))
  {
    if dels != [] {
      var init, g := dels[..|dels| - 1], dels[|dels| - 1].guid;
      RemovalFoldMembers(st, init);
      RemovalFoldIds(st, init);
      var q, d0 := RemovalFold(st, init), DoomedGuids(init, st.ids);
      DoomedGuidsSnoc(dels, st.ids);
      assert RemovalFold(st, dels) == RemovalStep(q, dels[|dels| - 1]);
      if g in q.ids {
        assert g in st.ids && g !in d0;
        MembersLoseOne(st.members, q.members, d0, g);
      } else {
        assert DoomedGuids(dels, st.ids) == d0;
      }
    }
  }

  /** Dropping one more guid, not dropped before, from the membership. */
  lemma MembersLoseOne(sm: seq<string>, qm: seq<string>, d0: set<string>, g: string)
    requires multiset(qm) == multiset(sm) - multiset(d0) && g !in d0
    ensures multiset(RemoveOne(qm, g)) == multiset(sm) - multiset(d0 + {g})
  {
    RemoveOneCount(qm, g);
    assert multiset(d0 + {g}) == multiset(d0) + multiset{g} by {
      assert g !in multiset(d0);
    }
  }

  /** The guids with a local id in the order their first deletion row
      comes. */
  function DoomedOrder(dels: seq<ContactInformation>, ids: map<string, string>): (o: seq<string>)
    ensures forall x :: x in o ==> x in ids
  {
    if dels == [] then []
    else
      var p, g := DoomedOrder(dels[..|dels| - 1], ids), dels[|dels| - 1].guid;
      p + (if g in ids && g !in p then [g] else [])
  }

  predicate Distinct(o: seq<string>)
  {
    forall i, j :: 0 <= i < j < |o| ==> o[i] != o[j]
  }

  /** The order lists each guid of `DoomedGuids` exactly once. */
  lemma {:induction false} DoomedOrderLists(dels: seq<ContactInformation>, ids: map<string, string>)
    ensures forall x :: x in DoomedOrder(dels, ids) <==> x in DoomedGuids(dels, ids)
    ensures Distinct(DoomedOrder(dels, ids))
  {
    if dels != [] {
      DoomedOrderLists(dels[..|dels| - 1], ids);
    }
  }

  function DoomedContacts(o: seq<string>, ids: map<string, string>): (r: seq<Contact>)
    requires forall x :: x in o ==> x in ids
    ensures |r| == |o|
  {
    seq(|o|, i requires 0 <= i < |o| => Doomed(o[i], ids[o[i]]))
  }

  /** One contact is reported per guid with a local id, in the order of
      the deletion rows, carrying that guid and id. */
  lemma {:induction false} RemovalFoldReports(st: Removal, dels: seq<ContactInformation>)
    ensures RemovalFold(st, dels).removed == st.removed + DoomedContacts(DoomedOrder(dels, st.ids), st.ids)
  {
    if dels != [] {
      var init, g := dels[..|dels| - 1], dels[|dels| - 1].guid;
      RemovalFoldReports(st, init);
      RemovalFoldIds(st, init);
      DoomedOrderLists(init, st.ids);
      var q, p := RemovalFold(st, init), DoomedOrder(init, st.ids);
      var r := RemovalFold(st, dels);
      var o := DoomedOrder(dels, st.ids);
      if g in q.ids {
        assert g in st.ids && g !in p && q.ids[g] == st.ids[g];
        assert o == p + [g];
        assert r.removed == q.removed + [Doomed(g, st.ids[g])];
        assert DoomedContacts(o, st.ids) == DoomedContacts(p, st.ids) + [Doomed(g, st.ids[g])];
      } else {
        assert g in st.ids ==> g in p;
        assert o == p;
        assert r.removed == q.removed;
      }
    }
  }
}
