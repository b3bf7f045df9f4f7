/** The upsync half of the engine stated on values (src/carddav.cpp:
    820-968): which requests `upsyncUpdates` issues for the local
    additions, modifications and removals of one addressbook, how it updates
    the sync state on the way, and what a reply changes. */
module Upsync {
  import opened Optional
  import opened Strings
  import opened ParserTypes
  import opened SyncState
  import opened EngineTypes
  import opened VCardConverter

  /** The part of the engine and syncer state that upsync reads and writes.
      `counter` is `m_upsyncRequests`; `stopped` records that a request
      could not be built, after which `upsyncUpdates` returns. */
  datatype Upsync = Upsync(
    uids: map<string, string>,
    uris: map<string, string>,
    etags: map<string, string>,
    ids: map<string, string>,
    unsupported: map<string, seq<string>>,
    members: map<string, seq<string>>,
    counter: int,
    requests: seq<Request>,
    pending: seq<Deferred>,
    emitted: seq<EngineSignal>,
    stopped: bool)

  /** How far `m_upsyncRequests` is ahead of the work that will bring it
      down. */
  function Surplus(st: Upsync): int
  {
    st.counter - Tokens(st.requests, st.pending, DeferredUpsyncComplete)
  }

  /** `QUuid::toString()` with every '-', '{' and '}' removed. */
  function StripUuid(s: string): (r: string)
    ensures |r| <= |s|
  {
    if s == [] then []
    else StripUuid(s[..|s| - 1]) + (if s[|s| - 1] in {'-', '{', '}'} then [] else [s[|s| - 1]])
  }

  /** The stripped text keeps every other character in order and none of
      the removed ones. */
  lemma {:induction false} StripUuidRemovesPunctuation(s: string)
    ensures forall i :: 0 <= i < |StripUuid(s)| ==> StripUuid(s)[i] !in {'-', '{', '}'}
    ensures forall c :: c !in {'-', '{', '}'} ==> multiset(StripUuid(s))[c] == multiset(s)[c]
  {
    if s != [] {
      var init := s[..|s| - 1];
      StripUuidRemovesPunctuation(init);
      assert s == init + [s[|s| - 1]];
    }
  }

  /** `QContactId::toString()`: "" for a null id. */
  function IdText(id: Option<string>): string
  {
    if id.Some? then id.value else ""
  }

  /** The guid and the uri minted for a new contact from its server uid. */
  function MintedGuid(accountId: nat, uid: string): string
  {
    AccountPrefix(accountId) + uid
  }

  function MintedUri(addressbookUrl: string, uid: string): string
  {
    addressbookUrl + "/" + uid + ".vcf"
  }

  /** A request that ends in `upsyncComplete`: issued and counted, or
      `error()` and the rest of `upsyncUpdates` abandoned. */
  function IssueUp(st: Upsync, req: Request, canBuild: Request -> bool): Upsync
  {
    if canBuild(req) then st.(counter := st.counter + 1, requests := st.requests + [req])
    else st.(emitted := st.emitted + [Error(None)], stopped := true)
  }

  /** src/carddav.cpp:834-863, one local addition: a fresh uid from the
      generated UUID, the guid and uri derived from it recorded with the
      local id, and the contact uploaded under its uid with no etag. */
  function AddStep(st: Upsync, addressbookUrl: string, accountId: nat, c: Contact, uuid: string,
                   write: Contact -> string, canBuild: Request -> bool): Upsync
  {
    if st.stopped then st
    else
      var uid := StripUuid(uuid);
      var guid := MintedGuid(accountId, uid);
      var uri := MintedUri(addressbookUrl, uid);
      var st1 := st.(uids := st.uids[guid := uid], uris := st.uris[guid := uri], ids := st.ids[guid := IdText(c.id)]);
      var vcard := Stitch(write(WithGuid(c, uid)), []);
      IssueUp(st1, AddModRequest(addressbookUrl, uri, "", vcard, guid), canBuild)
  }

  /** src/carddav.cpp:866-899, one local modification. A contact without a
      guid, or whose guid has no stored uid, is skipped; otherwise it is
      uploaded under its uid, with its cached unsupported properties, to
      its stored uri with its stored etag. Every table read is an
      `operator[]`. */
  function ModStep(st: Upsync, addressbookUrl: string, c: Contact,
                   write: Contact -> string, canBuild: Request -> bool): Upsync
  {
    if st.stopped then st
    else
      var g := Guid(c);
      if g == "" then st
      else
        var uid := Get(st.uids, g);
        var uids := Touch(st.uids, g);
        if uid == "" then st.(uids := uids)
        else ModSend(st.(uids := uids), addressbookUrl, c, uid, write, canBuild)
  }

  /** The upload of a modification whose guid has a uid: the contact is
      written under that uid with its cached properties stitched in, and
      sent with the stored uri and etag. */
  function ModSend(st: Upsync, addressbookUrl: string, c: Contact, uid: string,
                   write: Contact -> string, canBuild: Request -> bool): Upsync
  {
    var g := Guid(c);
    var vcard := Stitch(write(WithGuid(c, uid)), GetList(st.unsupported, g));
    var req := AddModRequest(addressbookUrl, Get(st.uris, g), Get(st.etags, g), vcard, g);
    var st1 := st.(unsupported := TouchList(st.unsupported, g), uris := Touch(st.uris, g), etags := Touch(st.etags, g));
    IssueUp(st1, req, canBuild)
  }

  /** src/carddav.cpp:902-925, one local removal, as written: the deletion
      is requested with the stored uri and etag, and the guid's etag, uri,
      id and uid and its membership are dropped. Its cached unsupported
      properties are kept. */
  function RemoveStep(st: Upsync, addressbookUrl: string, c: Contact, canBuild: Request -> bool): Upsync
  {
    if st.stopped then st
    else
      var g := Guid(c);
      var req := DeletionRequest(addressbookUrl, Get(st.uris, g), Get(st.etags, g));
      var uris, etags := Touch(st.uris, g), Touch(st.etags, g);
      if !canBuild(req) then st.(uris := uris, etags := etags, emitted := st.emitted + [Error(None)], stopped := true)
      else
        st.(etags := etags - {g}, uris := uris - {g}, ids := st.ids - {g}, uids := st.uids - {g},
            members := st.members[addressbookUrl := RemoveOne(GetList(st.members, addressbookUrl), g)],
            counter := st.counter + 1, requests := st.requests + [req])
  }

  /** The removal with the cached unsupported properties dropped as well,
      as `contactAddModsComplete` does for a server-side deletion
      (src/carddav.cpp:791). */
  function RemoveStepCorrected(st: Upsync, addressbookUrl: string, c: Contact, canBuild: Request -> bool): Upsync
  {
    var r := RemoveStep(st, addressbookUrl, c, canBuild);
    if st.stopped || r.stopped then r else r.(unsupported := r.unsupported - {Guid(c)})
  }

  function AddFold(st: Upsync, addressbookUrl: string, accountId: nat, added: seq<Contact>, uuids: seq<string>,
                   write: Contact -> string, canBuild: Request -> bool): Upsync
    requires |uuids| == |added|
  {
    if added == [] then st
    else
      var n := |added| - 1;
      var q := AddFold(st, addressbookUrl, accountId, added[..n], uuids[..n], write, canBuild);
      AddStep(q, addressbookUrl, accountId, added[n], uuids[n], write, canBuild)
  }

  function ModFold(st: Upsync, addressbookUrl: string, modified: seq<Contact>,
                   write: Contact -> string, canBuild: Request -> bool): Upsync
  {
    if modified == [] then st
    else
      var n := |modified| - 1;
      ModStep(ModFold(st, addressbookUrl, modified[..n], write, canBuild), addressbookUrl, modified[n], write, canBuild)
  }

  function RemoveFold(st: Upsync, addressbookUrl: string, removed: seq<Contact>, canBuild: Request -> bool): Upsync
  {
    if removed == [] then st
    else
      var n := |removed| - 1;
      RemoveStep(RemoveFold(st, addressbookUrl, removed[..n], canBuild), addressbookUrl, removed[n], canBuild)
  }

  /** `upsyncUpdates` for one addressbook: with nothing to send, one queued
      `upsyncComplete`; otherwise the additions, then the modifications,
      then the removals. `uuids` are the UUIDs generated for the
      additions, in order. */
  function UpsyncUpdates(st: Upsync, addressbookUrl: string, accountId: nat,
                         added: seq<Contact>, modified: seq<Contact>, removed: seq<Contact>, uuids: seq<string>,
                         write: Contact -> string, canBuild: Request -> bool): Upsync
    requires |uuids| == |added|
  {
    var st0 := st.(stopped := false);
    if added == [] && modified == [] && removed == [] then
      st0.(counter := st0.counter + 1, pending := st0.pending + [DeferredUpsyncComplete])
    else
      var a := AddFold(st0, addressbookUrl, accountId, added, uuids, write, canBuild);
      RemoveFold(ModFold(a, addressbookUrl, modified, write, canBuild), addressbookUrl, removed, canBuild)
  }

  lemma AddFoldPrefix(st: Upsync, addressbookUrl: string, accountId: nat, added: seq<Contact>, uuids: seq<string>,
                      write: Contact -> string, canBuild: Request -> bool, i: nat)
    requires |uuids| == |added| && i < |added|
    ensures AddFold(st, addressbookUrl, accountId, added[..i + 1], uuids[..i + 1], write, canBuild)
      == AddStep(AddFold(st, addressbookUrl, accountId, added[..i], uuids[..i], write, canBuild),
                 addressbookUrl, accountId, added[i], uuids[i], write, canBuild)
  {
    assert added[..i + 1][..i] == added[..i];
    assert uuids[..i + 1][..i] == uuids[..i];
  }

  lemma ModFoldPrefix(st: Upsync, addressbookUrl: string, modified: seq<Contact>,
                      write: Contact -> string, canBuild: Request -> bool, i: nat)
    requires i < |modified|
    ensures ModFold(st, addressbookUrl, modified[..i + 1], write, canBuild)
      == ModStep(ModFold(st, addressbookUrl, modified[..i], write, canBuild), addressbookUrl, modified[i], write, canBuild)
  {
    assert modified[..i + 1][..i] == modified[..i];
  }

  lemma RemoveFoldPrefix(st: Upsync, addressbookUrl: string, removed: seq<Contact>, canBuild: Request -> bool, i: nat)
    requires i < |removed|
    ensures RemoveFold(st, addressbookUrl, removed[..i + 1], canBuild)
      == RemoveStep(RemoveFold(st, addressbookUrl, removed[..i], canBuild), addressbookUrl, removed[i], canBuild)
  {
    assert removed[..i + 1][..i] == removed[..i];
  }

  // ---------------------------------------------------------------------
  // The counter
  // ---------------------------------------------------------------------

  /** Issuing keeps the surplus: a built request is counted and owes one
      completion; an unbuilt one neither. */
  lemma {:induction false} IssueUpBalance(st: Upsync, req: Request, canBuild: Request -> bool)
    requires BarrierOf(req) == Some(DeferredUpsyncComplete)
    ensures Surplus(IssueUp(st, req, canBuild)) == Surplus(st)
  {
    var r := IssueUp(st, req, canBuild);
    if canBuild(req) {
      IssueAddsToken(st.requests, req, DeferredUpsyncComplete);
      assert r.counter == st.counter + 1 && r.requests == st.requests + [req] && r.pending == st.pending;
    } else {
      assert r.counter == st.counter && r.requests == st.requests && r.pending == st.pending;
    }
  }

  lemma {:induction false} AddFoldBalance(st: Upsync, addressbookUrl: string, accountId: nat, added: seq<Contact>, uuids: seq<string>,
                                          write: Contact -> string, canBuild: Request -> bool)
    requires |uuids| == |added|
    ensures Surplus(AddFold(st, addressbookUrl, accountId, added, uuids, write, canBuild)) == Surplus(st)
    ensures AddFold(st, addressbookUrl, accountId, added, uuids, write, canBuild).pending == st.pending
  {
    if added != [] {
      var n := |added| - 1;
      AddFoldBalance(st, addressbookUrl, accountId, added[..n], uuids[..n], write, canBuild);
      var q := AddFold(st, addressbookUrl, accountId, added[..n], uuids[..n], write, canBuild);
      if !q.stopped {
        var uid := StripUuid(uuids[n]);
        var q1 := q.(uids := q.uids[MintedGuid(accountId, uid) := uid],
                     uris := q.uris[MintedGuid(accountId, uid) := MintedUri(addressbookUrl, uid)],
                     ids := q.ids[MintedGuid(accountId, uid) := IdText(added[n].id)]);
        IssueUpBalance(q1, AddModRequest(addressbookUrl, MintedUri(addressbookUrl, uid), "",
                                         Stitch(write(WithGuid(added[n], uid)), []), MintedGuid(accountId, uid)), canBuild);
      }
    }
  }

  lemma ModStepBalance(st: Upsync, addressbookUrl: string, c: Contact, write: Contact -> string, canBuild: Request -> bool)
    ensures Surplus(ModStep(st, addressbookUrl, c, write, canBuild)) == Surplus(st)
    ensures ModStep(st, addressbookUrl, c, write, canBuild).pending == st.pending
  {
    var g := Guid(c);
    if !st.stopped && g != "" && Get(st.uids, g) != "" {
      ModSendBalance(st.(uids := Touch(st.uids, g)), addressbookUrl, c, Get(st.uids, g), write, canBuild);
    }
  }

  lemma ModSendBalance(st: Upsync, addressbookUrl: string, c: Contact, uid: string,
                       write: Contact -> string, canBuild: Request -> bool)
    ensures Surplus(ModSend(st, addressbookUrl, c, uid, write, canBuild)) == Surplus(st)
    ensures ModSend(st, addressbookUrl, c, uid, write, canBuild).pending == st.pending
  {
    var g := Guid(c);
    var st1 := st.(unsupported := TouchList(st.unsupported, g), uris := Touch(st.uris, g), etags := Touch(st.etags, g));
    IssueUpBalance(st1, AddModRequest(addressbookUrl, Get(st.uris, g), Get(st.etags, g),
                                      Stitch(write(WithGuid(c, uid)), GetList(st.unsupported, g)), g), canBuild);
  }

  lemma {:induction false} ModFoldBalance(st: Upsync, addressbookUrl: string, modified: seq<Contact>,
                                          write: Contact -> string, canBuild: Request -> bool)
    ensures Surplus(ModFold(st, addressbookUrl, modified, write, canBuild)) == Surplus(st)
    ensures ModFold(st, addressbookUrl, modified, write, canBuild).pending == st.pending
  {
    if modified != [] {
      var n := |modified| - 1;
      ModFoldBalance(st, addressbookUrl, modified[..n], write, canBuild);
      ModStepBalance(ModFold(st, addressbookUrl, modified[..n], write, canBuild), addressbookUrl, modified[n], write, canBuild);
    }
  }

  lemma {:induction false} RemoveFoldBalance(st: Upsync, addressbookUrl: string, removed: seq<Contact>, canBuild: Request -> bool)
    ensures Surplus(RemoveFold(st, addressbookUrl, removed, canBuild)) == Surplus(st)
    ensures RemoveFold(st, addressbookUrl, removed, canBuild).pending == st.pending
  {
    if removed != [] {
      var n := |removed| - 1;
      RemoveFoldBalance(st, addressbookUrl, removed[..n], canBuild);
      RemoveStepBalance(RemoveFold(st, addressbookUrl, removed[..n], canBuild), addressbookUrl, removed[n], canBuild);
    }
  }

  lemma RemoveStepBalance(st: Upsync, addressbookUrl: string, c: Contact, canBuild: Request -> bool)
    ensures Surplus(RemoveStep(st, addressbookUrl, c, canBuild)) == Surplus(st)
    ensures RemoveStep(st, addressbookUrl, c, canBuild).pending == st.pending
  {
    var g := Guid(c);
    var req := DeletionRequest(addressbookUrl, Get(st.uris, g), Get(st.etags, g));
    if !st.stopped && canBuild(req) {
      IssueAddsToken(st.requests, req, DeferredUpsyncComplete);
    }
  }

  /** Every path through `upsyncUpdates` raises `m_upsyncRequests` by
      exactly the completions it arranges: one per request issued, and one
      queued call when there is nothing to send. */
  lemma UpsyncBalance(st: Upsync, addressbookUrl: string, accountId: nat,
                      added: seq<Contact>, modified: seq<Contact>, removed: seq<Contact>, uuids: seq<string>,
                      write: Contact -> string, canBuild: Request -> bool)
    requires |uuids| == |added|
    ensures Surplus(UpsyncUpdates(st, addressbookUrl, accountId, added, modified, removed, uuids, write, canBuild)) == Surplus(st)
  {
    var st0 := st.(stopped := false);
    if added == [] && modified == [] && removed == [] {
      DeferAddsToken(st0.pending, DeferredUpsyncComplete, DeferredUpsyncComplete);
    } else {
      AddFoldBalance(st0, addressbookUrl, accountId, added, uuids, write, canBuild);
      var a := AddFold(st0, addressbookUrl, accountId, added, uuids, write, canBuild);
      ModFoldBalance(a, addressbookUrl, modified, write, canBuild);
      RemoveFoldBalance(ModFold(a, addressbookUrl, modified, write, canBuild), addressbookUrl, removed, canBuild);
    }
  }

  /** With nothing to send the only effect is one counted, queued
      completion: the barrier is never reached synchronously. */
  lemma NothingToSendDefers(st: Upsync, addressbookUrl: string, accountId: nat, write: Contact -> string, canBuild: Request -> bool)
    ensures var r := UpsyncUpdates(st, addressbookUrl, accountId, [], [], [], [], write, canBuild);
      r == st.(stopped := false, counter := st.counter + 1, pending := st.pending + [DeferredUpsyncComplete])
      && CountDeferred(r.pending, DeferredUpsyncComplete) == CountDeferred(st.pending, DeferredUpsyncComplete) + 1
  {
    DeferAddsToken(st.pending, DeferredUpsyncComplete, DeferredUpsyncComplete);
  }

  // ---------------------------------------------------------------------
  // The three kinds of change
  // ---------------------------------------------------------------------

  /** A local addition gets a uid free of UUID punctuation, a guid with
      this account's prefix, and a uri under the addressbook; all three and
      its local id are recorded, and the request uploads the contact under
      its uid, with no etag and no cached properties. */
  lemma AdditionMintsIdentity(st: Upsync, addressbookUrl: string, accountId: nat, c: Contact, uuid: string,
                              write: Contact -> string, canBuild: Request -> bool)
    requires !st.stopped
    ensures var r, uid := AddStep(st, addressbookUrl, accountId, c, uuid, write, canBuild), StripUuid(uuid);
      var guid := MintedGuid(accountId, uid);
      && StartsWith(guid, AccountPrefix(accountId))
      && (forall i :: 0 <= i < |uid| ==> uid[i] !in {'-', '{', '}'})
      && r.uids == st.uids[guid := uid]
      && r.uris == st.uris[guid := addressbookUrl + "/" + uid + ".vcf"]
      && r.ids == st.ids[guid := IdText(c.id)]
      && r.etags == st.etags && r.unsupported == st.unsupported && r.members == st.members
      && var req := AddModRequest(addressbookUrl, addressbookUrl + "/" + uid + ".vcf", "", Stitch(write(WithGuid(c, uid)), []), guid);
         (canBuild(req) <==> !r.stopped)
         && (canBuild(req) ==> r.requests == st.requests + [req])
         && Guid(WithGuid(c, uid)) == uid
  {
    StripUuidRemovesPunctuation(uuid);
    var guid := MintedGuid(accountId, StripUuid(uuid));
    assert guid[..|AccountPrefix(accountId)|] == AccountPrefix(accountId);
  }

  /** A modification is sent exactly when the contact has a guid with a
      stored uid; it then goes to the stored uri with the stored etag and
      carries the cached unsupported properties. A skipped modification
      issues nothing and counts nothing. */
  lemma ModificationRule(st: Upsync, addressbookUrl: string, c: Contact, write: Contact -> string, canBuild: Request -> bool)
    requires !st.stopped
    ensures var r, g := ModStep(st, addressbookUrl, c, write, canBuild), Guid(c);
      && (g == "" || Get(st.uids, g) == "" ==>
            r.requests == st.requests && r.counter == st.counter && !r.stopped && r.emitted == st.emitted)
      && (g != "" && Get(st.uids, g) != "" ==>
            var req := AddModRequest(addressbookUrl, Get(st.uris, g), Get(st.etags, g),
                                     Stitch(write(WithGuid(c, Get(st.uids, g))), GetList(st.unsupported, g)), g);
            (canBuild(req) ==> r.requests == st.requests + [req] && r.counter == st.counter + 1)
            && (!canBuild(req) ==> r.requests == st.requests && r.stopped))
      && r.ids == st.ids && r.members == st.members
  {
  }

  /** A modification changes no stored uid, uri, etag or cached property:
      it only reads them, adding empty entries for missing keys. */
  lemma ModificationKeepsTables(st: Upsync, addressbookUrl: string, c: Contact, write: Contact -> string, canBuild: Request -> bool)
    ensures var r := ModStep(st, addressbookUrl, c, write, canBuild);
      forall x :: Get(r.uids, x) == Get(st.uids, x) && Get(r.uris, x) == Get(st.uris, x)
        && Get(r.etags, x) == Get(st.etags, x) && GetList(r.unsupported, x) == GetList(st.unsupported, x)
  {
    var g := Guid(c);
    ModStepTouches(st, addressbookUrl, c, write, canBuild);
    TouchRule(st.uids, g);
    TouchRule(st.uris, g);
    TouchRule(st.etags, g);
    TouchListRule(st.unsupported, g);
  }

  /** Each table a modification reads is kept or has the guid touched. */
  lemma ModStepTouches(st: Upsync, addressbookUrl: string, c: Contact, write: Contact -> string, canBuild: Request -> bool)
    ensures var r, g := ModStep(st, addressbookUrl, c, write, canBuild), Guid(c);
      && (r.uids == st.uids || r.uids == Touch(st.uids, g))
      && (r.uris == st.uris || r.uris == Touch(st.uris, g))
      && (r.etags == st.etags || r.etags == Touch(st.etags, g))
      && (r.unsupported == st.unsupported || r.unsupported == TouchList(st.unsupported, g))
  {
    var g := Guid(c);
    if !st.stopped && g != "" && Get(st.uids, g) != "" {
      ModSendTables(st.(uids := Touch(st.uids, g)), addressbookUrl, c, Get(st.uids, g), write, canBuild);
    }
  }

  /** Sending a modification touches the guid's uri, etag and cached
      properties and leaves the other tables alone. */
  lemma ModSendTables(st: Upsync, addressbookUrl: string, c: Contact, uid: string,
                      write: Contact -> string, canBuild: Request -> bool)
    ensures var r, g := ModSend(st, addressbookUrl, c, uid, write, canBuild), Guid(c);
      && r.uids == st.uids && r.ids == st.ids && r.members == st.members
      && r.uris == Touch(st.uris, g) && r.etags == Touch(st.etags, g) && r.unsupported == TouchList(st.unsupported, g)
  {
    var g := Guid(c);
    var st1 := st.(unsupported := TouchList(st.unsupported, g), uris := Touch(st.uris, g), etags := Touch(st.etags, g));
    IssueUpTables(st1, AddModRequest(addressbookUrl, Get(st.uris, g), Get(st.etags, g),
                                     Stitch(write(WithGuid(c, uid)), GetList(st.unsupported, g)), g), canBuild);
  }

  /** Issuing a request changes no table. */
  lemma IssueUpTables(st: Upsync, req: Request, canBuild: Request -> bool)
    ensures var r := IssueUp(st, req, canBuild);
      r.uids == st.uids && r.uris == st.uris && r.etags == st.etags && r.ids == st.ids
      && r.unsupported == st.unsupported && r.members == st.members
  {
    if canBuild(req) {
    } else {
    }
  }


  /** A sent removal forgets the guid's etag, uri, id and uid and drops one
      occurrence from the addressbook's membership; as written, its cached
      unsupported properties survive. */
  lemma RemovalKeepsUnsupported(st: Upsync, addressbookUrl: string, c: Contact, canBuild: Request -> bool)
    requires !st.stopped
    requires canBuild(DeletionRequest(addressbookUrl, Get(st.uris, Guid(c)), Get(st.etags, Guid(c))))
    ensures var r, g := RemoveStep(st, addressbookUrl, c, canBuild), Guid(c);
      && r.requests == st.requests + [DeletionRequest(addressbookUrl, Get(st.uris, g), Get(st.etags, g))]
      && r.etags == st.etags - {g} && r.uris == st.uris - {g} && r.ids == st.ids - {g} && r.uids == st.uids - {g}
      && multiset(GetList(r.members, addressbookUrl)) == multiset(GetList(st.members, addressbookUrl)) - multiset{g}
      && r.unsupported == st.unsupported
      && (g in st.unsupported ==> g in r.unsupported)
  {
    RemoveOneCount(GetList(st.members, addressbookUrl), Guid(c));
  }

  /** Corrected, a sent removal leaves no state at all under the guid,
      and changes nothing else. */
  lemma CorrectedRemovalForgetsAll(st: Upsync, addressbookUrl: string, c: Contact, canBuild: Request -> bool)
    requires !st.stopped
    requires canBuild(DeletionRequest(addressbookUrl, Get(st.uris, Guid(c)), Get(st.etags, Guid(c))))
    ensures var r, w, g := RemoveStepCorrected(st, addressbookUrl, c, canBuild), RemoveStep(st, addressbookUrl, c, canBuild), Guid(c);
      && g !in r.uids && g !in r.uris && g !in r.etags && g !in r.ids && g !in r.unsupported
      && r == w.(unsupported := st.unsupported - {g})
  {
  }

  /** Once a request could not be built, nothing further happens. */
  lemma {:induction false} StoppedRemovalsDoNothing(st: Upsync, addressbookUrl: string, removed: seq<Contact>, canBuild: Request -> bool)
    requires st.stopped
    ensures RemoveFold(st, addressbookUrl, removed, canBuild) == st
  {
    if removed != [] {
      StoppedRemovalsDoNothing(st, addressbookUrl, removed[..|removed| - 1], canBuild);
    }
  }

  lemma {:induction false} StoppedModificationsDoNothing(st: Upsync, addressbookUrl: string, modified: seq<Contact>,
                                                         write: Contact -> string, canBuild: Request -> bool)
    requires st.stopped
    ensures ModFold(st, addressbookUrl, modified, write, canBuild) == st
  {
    if modified != [] {
      StoppedModificationsDoNothing(st, addressbookUrl, modified[..|modified| - 1], write, canBuild);
    }
  }

  /** With every request buildable, each addition and removal issues one
      request, and nothing is emitted. */
  lemma {:induction false} AllBuiltAddFold(st: Upsync, addressbookUrl: string, accountId: nat, added: seq<Contact>, uuids: seq<string>,
                                           write: Contact -> string, canBuild: Request -> bool)
    requires |uuids| == |added| && !st.stopped && forall req :: canBuild(req)
    ensures var r := AddFold(st, addressbookUrl, accountId, added, uuids, write, canBuild);
      !r.stopped && r.emitted == st.emitted && |r.requests| == |st.requests| + |added| && r.counter == st.counter + |added|
  {
    if added != [] {
      var n := |added| - 1;
      AllBuiltAddFold(st, addressbookUrl, accountId, added[..n], uuids[..n], write, canBuild);
    }
  }

  lemma {:induction false} AllBuiltRemoveFold(st: Upsync, addressbookUrl: string, removed: seq<Contact>, canBuild: Request -> bool)
    requires !st.stopped && forall req :: canBuild(req)
    ensures var r := RemoveFold(st, addressbookUrl, removed, canBuild);
      !r.stopped && r.emitted == st.emitted && |r.requests| == |st.requests| + |removed| && r.counter == st.counter + |removed|
  {
    if removed != [] {
      AllBuiltRemoveFold(st, addressbookUrl, removed[..|removed| - 1], canBuild);
    }
  }

  // ---------------------------------------------------------------------
  // Replies (upsyncResponse)
  // ---------------------------------------------------------------------

  /** Once an addition could not be sent, the later additions do nothing:
      `upsyncUpdates` has returned. */
  lemma AddFoldStopped(st: Upsync, addressbookUrl: string, accountId: nat, added: seq<Contact>, uuids: seq<string>,
                                          write: Contact -> string, canBuild: Request -> bool, i: nat)
    requires |uuids| == |added| && i <= |added|
    requires AddFold(st, addressbookUrl, accountId, added[..i], uuids[..i], write, canBuild).stopped
    ensures AddFold(st, addressbookUrl, accountId, added, uuids, write, canBuild)
      == AddFold(st, addressbookUrl, accountId, added[..i], uuids[..i], write, canBuild)
  {
    var p := AddFold(st, addressbookUrl, accountId, added[..i], uuids[..i], write, canBuild);
    var j := i;
    while j < |added|
      invariant i <= j <= |added|
      invariant AddFold(st, addressbookUrl, accountId, added[..j], uuids[..j], write, canBuild) == p
    {
      AddFoldPrefix(st, addressbookUrl, accountId, added, uuids, write, canBuild, j);
      j := j + 1;
    }
    assert added[..j] == added && uuids[..j] == uuids;
  }

  lemma ModFoldStopped(st: Upsync, addressbookUrl: string, modified: seq<Contact>,
                       write: Contact -> string, canBuild: Request -> bool, i: nat)
    requires i <= |modified|
    requires ModFold(st, addressbookUrl, modified[..i], write, canBuild).stopped
    ensures ModFold(st, addressbookUrl, modified, write, canBuild) == ModFold(st, addressbookUrl, modified[..i], write, canBuild)
  {
    var p := ModFold(st, addressbookUrl, modified[..i], write, canBuild);
    var j := i;
    while j < |modified|
      invariant i <= j <= |modified|
      invariant ModFold(st, addressbookUrl, modified[..j], write, canBuild) == p
    {
      ModFoldPrefix(st, addressbookUrl, modified, write, canBuild, j);
      j := j + 1;
    }
    assert modified[..j] == modified;
  }


  lemma {:induction false} RemoveFoldStopped(st: Upsync, addressbookUrl: string, removed: seq<Contact>, canBuild: Request -> bool, i: nat)
    requires i <= |removed|
    requires RemoveFold(st, addressbookUrl, removed[..i], canBuild).stopped
    ensures RemoveFold(st, addressbookUrl, removed, canBuild) == RemoveFold(st, addressbookUrl, removed[..i], canBuild)
  {
    if i < |removed| {
      var n := |removed| - 1;
      assert removed[..n][..i] == removed[..i];
      RemoveFoldStopped(st, addressbookUrl, removed[..n], canBuild, i);
      var p := RemoveFold(st, addressbookUrl, removed[..n], canBuild);
      assert p.stopped;
      assert RemoveFold(st, addressbookUrl, removed, canBuild) == RemoveStep(p, addressbookUrl, removed[n], canBuild);
    } else {
      assert removed[..i] == removed;
    }
  }

  /** The value of the first header whose name contains "etag" in any
      case, or "" when there is none. */
  function EtagHeader(headers: seq<Header>): (r: string)
  {
    if headers == [] then ""
    else if Contains(ToLower(headers[0].name), "etag") then headers[0].value
    else EtagHeader(headers[1..])
  }

  /** The etag read from a reply is the value of the first matching
      header; with no matching header it is "". */
  lemma {:induction false} EtagHeaderIsFirstMatch(headers: seq<Header>)
    ensures var r := EtagHeader(headers);
      (forall i :: 0 <= i < |headers| ==> !Contains(ToLower(headers[i].name), "etag")) ==> r == ""
    ensures forall i ::
      (0 <= i < |headers| && Contains(ToLower(headers[i].name), "etag")
       && (forall j :: 0 <= j < i ==> !Contains(ToLower(headers[j].name), "etag")))
      ==> EtagHeader(headers) == headers[i].value
  {
    if headers != [] {
      EtagHeaderIsFirstMatch(headers[1..]);
      forall i | 0 < i < |headers| ensures headers[1..][i - 1] == headers[i] { }
    }
  }

  /** src/carddav.cpp:927-958: a failed reply emits the HTTP status and
      does not complete; a successful one stores the reported etag of an
      uploaded contact, when there is one, and completes. */
  function UpsyncResponse(st: Upsync, req: Request, reply: Reply): (Upsync, bool)
  {
    var st1 := st.(requests := RemoveOne(st.requests, req));
    if reply.failed then (st1.(emitted := st1.emitted + [Error(Some(reply.httpStatus))]), false)
    else
      var guid := if req.AddModRequest? then req.guid else "";
      var etag := EtagHeader(reply.headers);
      (if guid != "" && etag != "" then st1.(etags := st1.etags[guid := etag]) else st1, true)
  }

  /** A reply hands its request's token on: a successful reply to the
      completion that follows, a failed one to nobody. */
  lemma UpsyncResponseTakesToken(st: Upsync, req: Request, reply: Reply)
    requires req in st.requests && BarrierOf(req) == Some(DeferredUpsyncComplete)
    ensures UpsyncResponse(st, req, reply).1 == !reply.failed
    ensures var r := UpsyncResponse(st, req, reply).0;
      && Tokens(r.requests, r.pending, DeferredUpsyncComplete) + 1 == Tokens(st.requests, st.pending, DeferredUpsyncComplete)
      && r.counter == st.counter
  {
    ReplyTakesToken(st.requests, req, DeferredUpsyncComplete);
  }

  /** A reply changes at most the etag of the uploaded contact: to the
      reported one, when the reply succeeded and reported one. */
  lemma UpsyncResponseEtag(st: Upsync, req: Request, reply: Reply)
    ensures var r := UpsyncResponse(st, req, reply).0;
      && r.uids == st.uids && r.uris == st.uris && r.ids == st.ids && r.unsupported == st.unsupported
      && (forall g :: g != (if req.AddModRequest? then req.guid else "") ==> Get(r.etags, g) == Get(st.etags, g))
      && (!reply.failed && req.AddModRequest? && req.guid != "" && EtagHeader(reply.headers) != "" ==>
            Get(r.etags, req.guid) == EtagHeader(reply.headers))
      && (reply.failed || EtagHeader(reply.headers) == "" ==> r.etags == st.etags)
  {
    var r := UpsyncResponse(st, req, reply).0;
    var guid := if req.AddModRequest? then req.guid else "";
    var etag := EtagHeader(reply.headers);
    if !reply.failed && guid != "" && etag != "" {
      assert r.etags == st.etags[guid := etag];
    } else {
      assert r.etags == st.etags;
    }
  }
}
