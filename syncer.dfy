/** The reconciliation glue of src/syncer.cpp: which contacts belong to the
    account, where local changes are sent, how the local ids of stored
    contacts are recorded, how a failure ends the session, and how the
    per-account tables are read from and written to their JSON form. The
    methods take the syncer object `q` and the engine `engine` as
    parameters; the contact database, the account framework and the
    out-of-band storage are represented by the values they return. */
module SyncerFlow {
  import opened Optional
  import opened Strings
  import opened OrderedKeys
  import opened ParserTypes
  import opened SyncState
  import opened EngineTypes
  import CardDavEngine
  import U = Upsync

  const HttpUnauthorizedAccess := 401

  // ---------------------------------------------------------------------
  // Provenance
  // ---------------------------------------------------------------------

  /** src/syncer.cpp:71-74: the contact's guid starts with "<accountId>:". */
  predicate TestAccountProvenance(c: Contact, accountId: nat)
  {
    StartsWith(Guid(c), AccountPrefix(accountId))
  }

  /** A guid minted for one account ("<a>:<rest>") passes the provenance
      test of that account and of no other. */
  lemma ProvenanceIdentifiesAccount(c: Contact, a: nat, b: nat, rest: string)
    requires Guid(c) == AccountPrefix(a) + rest
    ensures TestAccountProvenance(c, b) <==> a == b
  {
    if TestAccountProvenance(c, b) {
      AccountPrefixDetermined(b, a, rest);
    } else {
      assert (AccountPrefix(a) + rest)[..|AccountPrefix(a)|] == AccountPrefix(a);
    }
  }

  // ---------------------------------------------------------------------
  // Where local changes go (upsyncLocalChanges)
  // ---------------------------------------------------------------------

  /** `keys().first()` of a QMap, or "" for an empty one. */
  ghost function FirstKey<V>(m: map<string, V>): string
  {
    if m == map[] then "" else Least(m.Keys)
  }

  /** src/syncer.cpp:222-237: the default addressbook, else the first
      addressbook with a ctag, else the first with a sync token; `None`
      when all three are empty. */
  ghost function AddedContactsAddressbook(defaultAddressbook: string, ctags: map<string, string>,
                                          syncTokens: map<string, string>): Option<string>
  {
    var a := defaultAddressbook;
    var b := if a == "" then FirstKey(ctags) else a;
    var c := if b == "" then FirstKey(syncTokens) else b;
    if c == "" then None else Some(c)
  }

  /** The empty string is the least of all strings, so it is the first key
      of every map holding it. */
  lemma FirstKeyEmpty<V>(m: map<string, V>)
    ensures FirstKey(m) == "" <==> m == map[] || "" in m
  {
    if m != map[] {
      if "" in m {
        StrLeAntisymmetric(Least(m.Keys), "");
      }
    }
  }

  /** The local additions go to the default addressbook when there is one,
      otherwise to the least addressbook url with a ctag, otherwise to the
      least with a sync token. There is no target exactly when no non-empty
      url is found that way: all three are empty, or hidden behind an empty
      key. */
  lemma AddedContactsAddressbookRule(defaultAddressbook: string, ctags: map<string, string>, syncTokens: map<string, string>)
    ensures var r := AddedContactsAddressbook(defaultAddressbook, ctags, syncTokens);
      && (r.Some? ==> r.value != "")
      && (defaultAddressbook != "" ==> r == Some(defaultAddressbook))
      && (r.None? <==> defaultAddressbook == "" && (ctags == map[] || "" in ctags) && (syncTokens == map[] || "" in syncTokens))
      && (defaultAddressbook == "" && ctags != map[] && "" !in ctags ==>
            r == Some(Least(ctags.Keys)) && r.value in ctags && forall k :: k in ctags ==> StrLe(r.value, k))
      && (defaultAddressbook == "" && (ctags == map[] || "" in ctags) && syncTokens != map[] && "" !in syncTokens ==>
            r == Some(Least(syncTokens.Keys)) && r.value in syncTokens && forall k :: k in syncTokens ==> StrLe(r.value, k))
  {
    FirstKeyEmpty(ctags);
    FirstKeyEmpty(syncTokens);
  }

  /** The contacts routed to one addressbook: those whose guid is in its
      membership list, in order. */
  function RoutedTo(cs: seq<Contact>, members: map<string, seq<string>>, url: string): (r: seq<Contact>)
    ensures |r| <= |cs|
  {
    if cs == [] then []
    else
      var init, c := cs[..|cs| - 1], cs[|cs| - 1];
      RoutedTo(init, members, url) + (if Guid(c) in GetList(members, url) then [c] else [])
  }

  /** A contact is routed to an addressbook exactly when its guid is a
      member there; a contact that is a member nowhere is routed nowhere. */
  lemma {:induction false} RoutedToMembers(cs: seq<Contact>, members: map<string, seq<string>>, url: string)
    ensures forall c :: c in RoutedTo(cs, members, url) <==> c in cs && Guid(c) in GetList(members, url)
  {
    if cs != [] {
      var init := cs[..|cs| - 1];
      RoutedToMembers(init, members, url);
      assert cs == init + [cs[|cs| - 1]];
    }
  }

  /** `modifiedAddressbookUrls`: the target of the additions when there
      are any, and every addressbook a modification or removal is routed
      to. */
  ghost function AffectedUrls(target: string, added: seq<Contact>, modified: seq<Contact>, removed: seq<Contact>,
                              members: map<string, seq<string>>): set<string>
  {
    (if added != [] then {target} else {})
    + (set url | url in members && RoutedTo(modified, members, url) != [])
    + (set url | url in members && RoutedTo(removed, members, url) != [])
  }

  /** Only the addressbook lists can route a contact, so an addressbook
      receives work exactly when it is affected. */
  lemma AffectedUrlsRule(target: string, added: seq<Contact>, modified: seq<Contact>, removed: seq<Contact>,
                         members: map<string, seq<string>>, url: string)
    ensures url in AffectedUrls(target, added, modified, removed, members) <==>
      (url == target && added != []) || RoutedTo(modified, members, url) != [] || RoutedTo(removed, members, url) != []
  {
    if url !in members {
      RoutedToNowhere(modified, members, url);
      RoutedToNowhere(removed, members, url);
    }
  }

  lemma {:induction false} RoutedToNowhere(cs: seq<Contact>, members: map<string, seq<string>>, url: string)
    requires GetList(members, url) == []
    ensures RoutedTo(cs, members, url) == []
  {
    if cs != [] {
      RoutedToNowhere(cs[..|cs| - 1], members, url);
    }
  }

  /** The additions one addressbook receives. */
  function AddedFor(target: string, added: seq<Contact>, url: string): seq<Contact>
  {
    if url == target then added else []
  }

  /** The generated UUIDs one addressbook's additions use. */
  function UuidsFor(target: string, uuids: seq<string>, url: string): seq<string>
  {
    if url == target then uuids else []
  }

  /** One `upsyncUpdates` per affected url, in `urls` order, with the
      segments computed from the membership lists as they were before the
      first call. */
  ghost function UpsyncEach(st: U.Upsync, urls: seq<string>, accountId: nat, target: string,
                            added: seq<Contact>, modified: seq<Contact>, removed: seq<Contact>,
                            members: map<string, seq<string>>, uuids: seq<string>,
                            write: Contact -> string, canBuild: Request -> bool): U.Upsync
    requires |uuids| == |added|
  {
    if urls == [] then st
    else
      var n := |urls| - 1;
      var r := UpsyncEach(st, urls[..n], accountId, target, added, modified, removed, members, uuids, write, canBuild);
      var url := urls[n];
      U.UpsyncUpdates(r, url, accountId, AddedFor(target, added, url), RoutedTo(modified, members, url),
                      RoutedTo(removed, members, url), UuidsFor(target, uuids, url), write, canBuild)
  }

  lemma UpsyncEachPrefix(st: U.Upsync, urls: seq<string>, accountId: nat, target: string,
                         added: seq<Contact>, modified: seq<Contact>, removed: seq<Contact>,
                         members: map<string, seq<string>>, uuids: seq<string>,
                         write: Contact -> string, canBuild: Request -> bool, i: nat)
    requires |uuids| == |added| && i < |urls|
    ensures UpsyncEach(st, urls[..i + 1], accountId, target, added, modified, removed, members, uuids, write, canBuild)
      == U.UpsyncUpdates(UpsyncEach(st, urls[..i], accountId, target, added, modified, removed, members, uuids, write, canBuild),
                         urls[i], accountId, AddedFor(target, added, urls[i]), RoutedTo(modified, members, urls[i]),
                         RoutedTo(removed, members, urls[i]), UuidsFor(target, uuids, urls[i]), write, canBuild)
  {
    assert urls[..i + 1][..i] == urls[..i];
  }

  /** However the requests go, the upsync counter stays level with the
      work that brings it down: `upsyncCompleted` follows the last reply. */
  lemma {:induction false} UpsyncEachBalance(st: U.Upsync, urls: seq<string>, accountId: nat, target: string,
                                             added: seq<Contact>, modified: seq<Contact>, removed: seq<Contact>,
                                             members: map<string, seq<string>>, uuids: seq<string>,
                                             write: Contact -> string, canBuild: Request -> bool)
    requires |uuids| == |added|
    ensures U.Surplus(UpsyncEach(st, urls, accountId, target, added, modified, removed, members, uuids, write, canBuild)) == U.Surplus(st)
  {
    if urls != [] {
      var n := |urls| - 1;
      var url := urls[n];
      UpsyncEachBalance(st, urls[..n], accountId, target, added, modified, removed, members, uuids, write, canBuild);
      U.UpsyncBalance(UpsyncEach(st, urls[..n], accountId, target, added, modified, removed, members, uuids, write, canBuild),
                      url, accountId, AddedFor(target, added, url), RoutedTo(modified, members, url),
                      RoutedTo(removed, members, url), UuidsFor(target, uuids, url), write, canBuild);
    }
  }

  // ---------------------------------------------------------------------
  // Failure and completion
  // ---------------------------------------------------------------------

  /** src/syncer.cpp:154-161: credentials are flagged for update only on
      401; the sync state is always purged and the sync fails. A call
      without a code (`None`) never flags the credentials. */
  function FailureSignals(code: Option<int>): (r: seq<SyncerSignal>)
    ensures r != [] && r[|r| - 1] == SyncFailed && SyncStatePurged in r
    ensures CredentialsNeedUpdate in r <==> code == Some(HttpUnauthorizedAccess)
  {
    (if code == Some(HttpUnauthorizedAccess) then [CredentialsNeedUpdate] else []) + [SyncStatePurged, SyncFailed]
  }

  // ---------------------------------------------------------------------
  // Recording local ids (continueSync)
  // ---------------------------------------------------------------------

  /** src/syncer.cpp:178-187: each stored contact's id is recorded under
      its guid, in order, until one without an id ends the session. The
      flag says whether all were recorded. */
  function RecordIds(ids: map<string, string>, cs: seq<Contact>): (map<string, string>, bool)
  {
    if cs == [] then (ids, true)
    else
      var r := RecordIds(ids, cs[..|cs| - 1]);
      var c := cs[|cs| - 1];
      if !r.1 then r
      else if c.id.None? then (r.0, false)
      else (r.0[Guid(c) := c.id.value], true)
  }

  /** The session goes on exactly when every stored contact has an id. */
  lemma {:induction false} RecordIdsSucceeds(ids: map<string, string>, cs: seq<Contact>)
    ensures RecordIds(ids, cs).1 <==> forall i :: 0 <= i < |cs| ==> cs[i].id.Some?
  {
    if cs != [] {
      var init := cs[..|cs| - 1];
      RecordIdsSucceeds(ids, init);
      assert forall i :: 0 <= i < |init| ==> init[i] == cs[i];
    }
  }

  /** After a successful recording each guid maps to the id of the last
      stored contact carrying it; every other guid keeps its old entry. */
  lemma {:induction false} RecordIdsValues(ids: map<string, string>, cs: seq<Contact>)
    requires RecordIds(ids, cs).1
    ensures var r := RecordIds(ids, cs).0;
      && (forall i :: 0 <= i < |cs| && cs[i].id.Some? && (forall j :: i < j < |cs| ==> Guid(cs[j]) != Guid(cs[i])) ==>
            Guid(cs[i]) in r && r[Guid(cs[i])] == cs[i].id.value)
      && (forall g :: (forall i :: 0 <= i < |cs| ==> Guid(cs[i]) != g) ==> (g in r <==> g in ids) && (g in ids ==> r[g] == ids[g]))
  {
    if cs != [] {
      var init := cs[..|cs| - 1];
      RecordIdsValues(ids, init);
      assert forall i :: 0 <= i < |init| ==> init[i] == cs[i];
    }
  }

  // ---------------------------------------------------------------------
  // Clean sync (readExtraStateData)
  // ---------------------------------------------------------------------

  /** The existing contacts that belong to the account, in order. */
  function OwnContacts(cs: seq<Contact>, accountId: nat): (r: seq<Contact>)
    ensures |r| <= |cs|
  {
    if cs == [] then []
    else
      var init, c := cs[..|cs| - 1], cs[|cs| - 1];
      OwnContacts(init, accountId) + (if TestAccountProvenance(c, accountId) then [c] else [])
  }

  /** `QMap::insert(guid, id.toString())` for each contact in turn. */
  function InsertIds(ids: map<string, string>, cs: seq<Contact>): map<string, string>
  {
    if cs == [] then ids
    else
      var c := cs[|cs| - 1];
      InsertIds(ids, cs[..|cs| - 1])[Guid(c) := U.IdText(c.id)]
  }

  /** The ids a contact list exports. */
  function IdsOf(cs: seq<Contact>): (r: seq<Option<string>>)
    ensures |r| == |cs| && forall i :: 0 <= i < |cs| ==> r[i] == cs[i].id
  {
    seq(|cs|, i requires 0 <= i < |cs| => cs[i].id)
  }

  /** Exactly the contacts with the account's prefix are kept, in order. */
  lemma {:induction false} OwnContactsMembers(cs: seq<Contact>, accountId: nat)
    ensures forall c :: c in OwnContacts(cs, accountId) <==> c in cs && TestAccountProvenance(c, accountId)
  {
    if cs != [] {
      var init := cs[..|cs| - 1];
      OwnContactsMembers(init, accountId);
      assert cs == init + [cs[|cs| - 1]];
    }
  }

  /** Recording ids adds exactly the guids of the recorded contacts. */
  lemma {:induction false} InsertIdsKeys(ids: map<string, string>, cs: seq<Contact>)
    ensures InsertIds(ids, cs).Keys == ids.Keys + set c | c in cs :: Guid(c)
  {
    if cs != [] {
      var init := cs[..|cs| - 1];
      InsertIdsKeys(ids, init);
      GuidsSnoc(init, cs[|cs| - 1], cs);
    }
  }

  /** The guids of a list extended by one contact. */
  lemma GuidsSnoc(init: seq<Contact>, last: Contact, cs: seq<Contact>)
    requires cs == init + [last]
    ensures (set c | c in cs :: Guid(c)) == (set c | c in init :: Guid(c)) + {Guid(last)}
  {
    assert forall c :: c in cs <==> c in init || c == last;
  }

  /** A clean sync adds to the id table exactly the guids of the existing
      contacts that belong to the account. */
  lemma CleanSyncRecordsOwnGuids(ids: map<string, string>, existing: seq<Contact>, accountId: nat)
    ensures InsertIds(ids, OwnContacts(existing, accountId)).Keys
      == ids.Keys + set c | c in existing && TestAccountProvenance(c, accountId) :: Guid(c)
  {
    OwnContactsMembers(existing, accountId);
    InsertIdsKeys(ids, OwnContacts(existing, accountId));
    assert (set c | c in OwnContacts(existing, accountId) :: Guid(c))
      == (set c | c in existing && TestAccountProvenance(c, accountId) :: Guid(c));
  }

  // ---------------------------------------------------------------------
  // The stored tables (readExtraStateData / storeExtraStateData)
  // ---------------------------------------------------------------------

  /** A JSON value as the tables read it: a string, an array, or another
      scalar, carried with the text `QVariant::toString` gives it. */
  datatype JsonValue = JString(s: string) | JArray(items: seq<JsonValue>) | JScalar(text: string)

  type JsonObject = map<string, JsonValue>

  /** `QJsonValue::toString()`: "" for anything but a string. */
  function StringOf(v: JsonValue): string
  {
    if v.JString? then v.s else ""
  }

  /** `QVariant::toString()` of an array element. */
  function TextOf(v: JsonValue): string
  {
    match v
    case JString(s) => s
    case JScalar(t) => t
    case JArray(_) => ""
  }

  /** The non-empty texts of a list of elements, in order. */
  function NonEmptyTexts(vs: seq<JsonValue>): seq<string>
  {
    if vs == [] then []
    else
      var t := TextOf(vs[|vs| - 1]);
      NonEmptyTexts(vs[..|vs| - 1]) + (if t != "" then [t] else [])
  }

  /** src/syncer.cpp:353-361: a list entry keeps the non-empty
      texts of its array; anything but an array loads as empty. */
  function ListOf(v: JsonValue): seq<string>
  {
    if v.JArray? then NonEmptyTexts(v.items) else []
  }

  /** The non-empty strings of a list, in order. */
  function NonEmpty(ss: seq<string>): (r: seq<string>)
    ensures |r| <= |ss|
  {
    if ss == [] then []
    else NonEmpty(ss[..|ss| - 1]) + (if ss[|ss| - 1] != "" then [ss[|ss| - 1]] else [])
  }

  /** `QJsonArray::fromStringList`. */
  function StringArray(ss: seq<string>): seq<JsonValue>
  {
    seq(|ss|, i requires 0 <= i < |ss| => JString(ss[i]))
  }

  function StringTable(obj: JsonObject): map<string, string>
  {
    map k | k in obj :: StringOf(obj[k])
  }

  function ListTable(obj: JsonObject): map<string, seq<string>>
  {
    map k | k in obj :: ListOf(obj[k])
  }

  function StringObject(m: map<string, string>): JsonObject
  {
    map k | k in m :: JString(m[k])
  }

  function ListObject(m: map<string, seq<string>>): JsonObject
  {
    map k | k in m :: JArray(StringArray(m[k]))
  }

  /** Loading drops the empty strings of a stored list and keeps the rest
      in order. */
  lemma {:induction false} StringArrayLoads(ss: seq<string>)
    ensures NonEmptyTexts(StringArray(ss)) == NonEmpty(ss)
  {
    if ss != [] {
      var init := ss[..|ss| - 1];
      StringArrayLoads(init);
      assert StringArray(ss)[..|ss| - 1] == StringArray(init);
    }
  }

  /** `NonEmpty` keeps exactly the non-empty strings, so it changes a list
      without empty strings not at all, and is idempotent. */
  lemma {:induction false} NonEmptyMembers(ss: seq<string>)
    ensures forall x :: x in NonEmpty(ss) <==> x in ss && x != ""
    ensures "" !in ss ==> NonEmpty(ss) == ss
  {
    if ss != [] {
      var init := ss[..|ss| - 1];
      NonEmptyMembers(init);
      assert ss == init + [ss[|ss| - 1]];
    }
  }

  lemma NonEmptyIdempotent(ss: seq<string>)
    ensures NonEmpty(NonEmpty(ss)) == NonEmpty(ss)
  {
    NonEmptyMembers(ss);
    NonEmptyMembers(NonEmpty(ss));
  }

  /** A string table stored and loaded again is unchanged. */
  lemma StringTableRoundTrip(m: map<string, string>)
    ensures StringTable(StringObject(m)) == m
  {
    assert forall k :: k in m ==> StringOf(StringObject(m)[k]) == m[k];
  }

  /** A list table stored and loaded again has lost exactly its empty
      strings. */
  lemma ListTableRoundTrip(m: map<string, seq<string>>)
    ensures ListTable(ListObject(m)) == map k | k in m :: NonEmpty(m[k])
  {
    forall k | k in m ensures ListOf(ListObject(m)[k]) == NonEmpty(m[k]) {
      StringArrayLoads(m[k]);
    }
  }

  /** The per-account tables of src/syncer.cpp:330-450. */
  datatype Tables = Tables(
    addressbookContactGuids: map<string, seq<string>>,
    addressbookCtags: map<string, string>,
    addressbookSyncTokens: map<string, string>,
    contactUids: map<string, string>,
    contactUris: map<string, string>,
    contactEtags: map<string, string>,
    contactIds: map<string, string>,
    contactUnsupportedProperties: map<string, seq<string>>)

  const KeyAddressbookContactGuids := "addressbookContactGuids"
  const KeyAddressbookCtags := "addressbookCtags"
  const KeyAddressbookSyncTokens := "addressbookSyncTokens"
  const KeyContactUids := "contactUids"
  const KeyContactUris := "contactUris"
  const KeyContactEtags := "contactEtags"
  const KeyContactIds := "contactIds"
  const KeyContactUnsupportedProperties := "contactUnsupportedProperties"

  /** The object stored under one key; an absent or undecodable value is
      the empty object. */
  function Blob(values: map<string, JsonObject>, key: string): JsonObject
  {
    if key in values then values[key] else map[]
  }

  /** src/syncer.cpp:330-450, without the clean-sync step. */
  function LoadTables(values: map<string, JsonObject>): Tables
  {
    Tables(ListTable(Blob(values, KeyAddressbookContactGuids)),
           StringTable(Blob(values, KeyAddressbookCtags)),
           StringTable(Blob(values, KeyAddressbookSyncTokens)),
           StringTable(Blob(values, KeyContactUids)),
           StringTable(Blob(values, KeyContactUris)),
           StringTable(Blob(values, KeyContactEtags)),
           StringTable(Blob(values, KeyContactIds)),
           ListTable(Blob(values, KeyContactUnsupportedProperties)))
  }

  /** src/syncer.cpp:493-576, up to the out-of-band store. */
  function StoreTables(t: Tables): map<string, JsonObject>
  {
    map[KeyAddressbookContactGuids := ListObject(t.addressbookContactGuids),
        KeyAddressbookCtags := StringObject(t.addressbookCtags),
        KeyAddressbookSyncTokens := StringObject(t.addressbookSyncTokens),
        KeyContactUids := StringObject(t.contactUids),
        KeyContactUris := StringObject(t.contactUris),
        KeyContactEtags := StringObject(t.contactEtags),
        KeyContactIds := StringObject(t.contactIds),
        KeyContactUnsupportedProperties := ListObject(t.contactUnsupportedProperties)]
  }

  /** The tables with the empty strings dropped from their lists. */
  function Filtered(t: Tables): Tables
  {
    t.(addressbookContactGuids := map k | k in t.addressbookContactGuids :: NonEmpty(t.addressbookContactGuids[k]),
       contactUnsupportedProperties := map k | k in t.contactUnsupportedProperties :: NonEmpty(t.contactUnsupportedProperties[k]))
  }

  /** Each table is found under its own key. */
  lemma StoredListBlobs(t: Tables)
    ensures Blob(StoreTables(t), KeyAddressbookContactGuids) == ListObject(t.addressbookContactGuids)
    ensures Blob(StoreTables(t), KeyContactUnsupportedProperties) == ListObject(t.contactUnsupportedProperties)
  {
  }

  lemma StoredStringBlobs(t: Tables)
    ensures Blob(StoreTables(t), KeyAddressbookCtags) == StringObject(t.addressbookCtags)
    ensures Blob(StoreTables(t), KeyAddressbookSyncTokens) == StringObject(t.addressbookSyncTokens)
    ensures Blob(StoreTables(t), KeyContactUids) == StringObject(t.contactUids)
    ensures Blob(StoreTables(t), KeyContactUris) == StringObject(t.contactUris)
    ensures Blob(StoreTables(t), KeyContactEtags) == StringObject(t.contactEtags)
    ensures Blob(StoreTables(t), KeyContactIds) == StringObject(t.contactIds)
  {
  }

  /** Storing and loading the tables is the identity up to the dropped
      empty strings. */
  lemma TablesRoundTrip(t: Tables)
    ensures LoadTables(StoreTables(t)) == Filtered(t)
  {
    StringTablesRoundTrip(t);
    ListTablesRoundTrip(t);
  }

  /** The two list tables come back without their empty strings. */
  lemma ListTablesRoundTrip(t: Tables)
    ensures var s, f := StoreTables(t), Filtered(t);
      && ListTable(Blob(s, KeyAddressbookContactGuids)) == f.addressbookContactGuids
      && ListTable(Blob(s, KeyContactUnsupportedProperties)) == f.contactUnsupportedProperties
  {
    StoredListBlobs(t);
    ListTableRoundTrip(t.addressbookContactGuids);
    ListTableRoundTrip(t.contactUnsupportedProperties);
  }

  /** The six string tables come back unchanged. */
  lemma StringTablesRoundTrip(t: Tables)
    ensures var s := StoreTables(t);
      && StringTable(Blob(s, KeyAddressbookCtags)) == t.addressbookCtags
      && StringTable(Blob(s, KeyAddressbookSyncTokens)) == t.addressbookSyncTokens
      && StringTable(Blob(s, KeyContactUids)) == t.contactUids
      && StringTable(Blob(s, KeyContactUris)) == t.contactUris
      && StringTable(Blob(s, KeyContactEtags)) == t.contactEtags
      && StringTable(Blob(s, KeyContactIds)) == t.contactIds
  {
    StoredStringBlobs(t);
    StringTableRoundTrip(t.addressbookCtags);
    StringTableRoundTrip(t.addressbookSyncTokens);
    StringTableRoundTrip(t.contactUids);
    StringTableRoundTrip(t.contactUris);
    StringTableRoundTrip(t.contactEtags);
    StringTableRoundTrip(t.contactIds);
  }

  /** Loaded lists hold no empty strings, so loaded tables survive a store
      and a load unchanged. */
  lemma {:induction false} NonEmptyTextsHasNoEmpty(vs: seq<JsonValue>)
    ensures "" !in NonEmptyTexts(vs)
  {
    if vs != [] {
      NonEmptyTextsHasNoEmpty(vs[..|vs| - 1]);
    }
  }

  lemma LoadedTablesAreStable(values: map<string, JsonObject>)
    ensures LoadTables(StoreTables(LoadTables(values))) == LoadTables(values)
  {
    TablesRoundTrip(LoadTables(values));
    LoadedTablesAreFiltered(values);
  }

  lemma LoadedTablesAreFiltered(values: map<string, JsonObject>)
    ensures Filtered(LoadTables(values)) == LoadTables(values)
  {
    LoadedListsAreFiltered(Blob(values, KeyAddressbookContactGuids));
    LoadedListsAreFiltered(Blob(values, KeyContactUnsupportedProperties));
  }

  /** A list table read from a blob holds no empty string, so filtering it
      again changes nothing. */
  lemma LoadedListsAreFiltered(obj: JsonObject)
    ensures (map k | k in ListTable(obj) :: NonEmpty(ListTable(obj)[k])) == ListTable(obj)
  {
    var m := ListTable(obj);
    forall k | k in m
      ensures NonEmpty(m[k]) == m[k]
    {
      var v := obj[k];
      if v.JArray? { NonEmptyTextsHasNoEmpty(v.items); }
      NonEmptyMembers(m[k]);
    }
  }

  // ---------------------------------------------------------------------
  // The syncer's methods
  // ---------------------------------------------------------------------

  /** The entry of a per-addressbook contact list, empty when absent. */
  function GetContacts(m: map<string, seq<Contact>>, k: string): seq<Contact>
  {
    if k in m then m[k] else []
  }

  /** What `syncFinished` signals: success once the state is stored,
      otherwise the failure of `cardDavError()`. */
  function FinishSignals(stored: bool): seq<SyncerSignal>
  {
    if stored then [SyncSucceeded] else FailureSignals(None)
  }

  /** The tables `storeExtraStateData` writes, as they stand. */
  function TablesOf(q: Syncer): Tables
    reads q
  {
    Tables(q.addressbookContactGuids, q.addressbookCtags, q.addressbookSyncTokens, q.contactUids,
           q.contactUris, q.contactEtags, q.contactIds, q.contactUnsupportedProperties)
  }

  /** The outcome of `upsyncLocalChanges` from the given starting state:
      no target for additions fails the sync; no affected addressbook
      finishes it; otherwise each affected addressbook, in ascending url
      order, gets one `upsyncUpdates` with its own segment. */
  ghost predicate LocalChangesSent(engine: CardDavEngine.CardDav, q: Syncer, st0: U.Upsync, signals0: seq<SyncerSignal>,
                                   defaultAddressbook: string, ctags: map<string, string>, syncTokens: map<string, string>,
                                   added: seq<Contact>, modified: seq<Contact>, removed: seq<Contact>,
                                   uuids: seq<string>, write: Contact -> string, stored: bool)
    requires engine.q == q && |uuids| == |added|
    reads engine, q
  {
    var target := AddedContactsAddressbook(defaultAddressbook, ctags, syncTokens);
    && (target.None? ==> q.signals == signals0 + FailureSignals(None) && engine.UpsyncView(false) == st0)
    && (target.Some? ==>
          var urls := AffectedUrls(target.value, added, modified, removed, st0.members);
          && (urls == {} ==> q.signals == signals0 + FinishSignals(stored) && engine.UpsyncView(false) == st0)
          && (urls != {} ==>
                var r := UpsyncEach(st0, Sorted(urls), q.accountId, target.value, added, modified, removed,
                                    st0.members, uuids, write, engine.canBuild);
                q.signals == signals0 && engine.UpsyncView(r.stopped) == r))
  }

  /** src/syncer.cpp:154-161. */
  method CardDavError(q: Syncer, code: Option<int>)
    modifies q`signals
    ensures q.signals == old(q.signals) + FailureSignals(code)
  {
    if code == Some(HttpUnauthorizedAccess) {
      q.signals := q.signals + [CredentialsNeedUpdate];
    }
    q.signals := q.signals + [SyncStatePurged, SyncFailed];
  }

  /** src/syncer.cpp:274-286: store the tables, then succeed; `stored`
      says whether the out-of-band and Buteo stores succeeded. */
  method SyncFinished(q: Syncer, stored: bool)
    modifies q`signals
    ensures q.signals == old(q.signals) + FinishSignals(stored)
  {
    var _ := StoreExtraStateData(q);
    if !stored {
      CardDavError(q, None);
      return;
    }
    q.signals := q.signals + [SyncSucceeded];
  }

  /** src/syncer.cpp:163-204. `storedAddMod` is what `storeRemoteChanges`
      gives back (the stored additions and modifications with their local
      ids), `None` when it failed; `local` is what `determineLocalChanges`
      gives back; `fromRemote` is the FROM_REMOTE sync direction. */
  method ContinueSync(q: Syncer, engine: CardDavEngine.CardDav, storedAddMod: Option<seq<Contact>>,
                      local: Option<(seq<Contact>, seq<Contact>, seq<Contact>)>, fromRemote: bool,
                      uuids: seq<string>, write: Contact -> string, stored: bool)
    requires engine.q == q
    requires local.Some? ==> |uuids| == |local.value.0|
    modifies q`signals, engine`upsyncRequests, engine`requests, engine`pending, engine`emitted,
             q`contactUids, q`contactUris, q`contactEtags, q`contactIds, q`addressbookContactGuids, q`contactUnsupportedProperties
    ensures storedAddMod.None? ==> q.signals == old(q.signals) + FailureSignals(None) && TablesOf(q) == old(TablesOf(q))
    ensures storedAddMod.Some? ==>
      var (ids, ok) := RecordIds(old(q.contactIds), storedAddMod.value);
      && (!ok || local.None? ==> q.signals == old(q.signals) + FailureSignals(None) && TablesOf(q) == old(TablesOf(q)).(contactIds := ids))
      && (ok && local.Some? && fromRemote ==>
            q.signals == old(q.signals) + FinishSignals(stored) && TablesOf(q) == old(TablesOf(q)).(contactIds := ids))
      && (ok && local.Some? && !fromRemote ==>
            LocalChangesSent(engine, q, old(engine.UpsyncView(false)).(ids := ids), old(q.signals),
                             old(q.defaultAddressbook), old(q.addressbookCtags), old(q.addressbookSyncTokens),
                             local.value.0, local.value.1, local.value.2, uuids, write, stored))
  {
    if storedAddMod.None? {
      CardDavError(q, None);
      return;
    }
    var ok := RecordLocalIds(q, storedAddMod.value);
    if !ok {
      CardDavError(q, None);
      return;
    }
    if local.None? {
      CardDavError(q, None);
      return;
    }
    var (locallyAdded, locallyModified, locallyDeleted) := local.value;
    if !fromRemote {
      UpsyncLocalChanges(q, engine, locallyAdded, locallyModified, locallyDeleted, uuids, write, stored);
    } else {
      SyncFinished(q, stored);
    }
  }

  /** src/syncer.cpp:178-187. */
  method RecordLocalIds(q: Syncer, addMod: seq<Contact>) returns (ok: bool)
    modifies q`contactIds
    ensures (q.contactIds, ok) == RecordIds(old(q.contactIds), addMod)
  {
    var i := 0;
    while i < |addMod|
      invariant 0 <= i <= |addMod|
      invariant RecordIds(old(q.contactIds), addMod[..i]) == (q.contactIds, true)
    {
      assert addMod[..i + 1][..i] == addMod[..i];
      var c := addMod[i];
      if c.id.None? {
        RecordIdsStopped(old(q.contactIds), addMod, i + 1);
        return false;
      }
      q.contactIds := q.contactIds[Guid(c) := c.id.value];
      i := i + 1;
    }
    assert addMod[..i] == addMod;
    return true;
  }

  /** src/syncer.cpp:206-272. `uuids` are the UUIDs generated for the
      additions; `stored` is passed on to `syncFinished`. */
  method UpsyncLocalChanges(q: Syncer, engine: CardDavEngine.CardDav, locallyAdded: seq<Contact>,
                            locallyModified: seq<Contact>, locallyDeleted: seq<Contact>,
                            uuids: seq<string>, write: Contact -> string, stored: bool)
    requires engine.q == q && |uuids| == |locallyAdded|
    modifies q`signals, engine`upsyncRequests, engine`requests, engine`pending, engine`emitted,
             q`contactUids, q`contactUris, q`contactEtags, q`contactIds, q`addressbookContactGuids, q`contactUnsupportedProperties
    ensures LocalChangesSent(engine, q, old(engine.UpsyncView(false)), old(q.signals),
                             old(q.defaultAddressbook), old(q.addressbookCtags), old(q.addressbookSyncTokens),
                             locallyAdded, locallyModified, locallyDeleted, uuids, write, stored)
  {
    var target := ChooseAddressbook(q.defaultAddressbook, q.addressbookCtags, q.addressbookSyncTokens);
    if target.None? {
      CardDavError(q, None);
      return;
    }
    var addedContactsAddressbook := target.value;
    var members := q.addressbookContactGuids;
    var added, modified, deleted, urls :=
      SegmentLocalChanges(addedContactsAddressbook, locallyAdded, locallyModified, locallyDeleted, members);
    if urls == {} {
      SyncFinished(q, stored);
      return;
    }
    var order := SortKeys(urls);
    SendUpdates(q, engine, order, addedContactsAddressbook, locallyAdded, locallyModified, locallyDeleted, members,
                added, modified, deleted, uuids, write);
  }

  /** src/syncer.cpp:238-258: the additions go to the target, each
      modification and removal to the addressbooks that list its guid;
      `urls` collects the addressbooks with work. */
  method SegmentLocalChanges(target: string, locallyAdded: seq<Contact>, locallyModified: seq<Contact>,
                             locallyDeleted: seq<Contact>, members: map<string, seq<string>>)
    returns (added: map<string, seq<Contact>>, modified: map<string, seq<Contact>>,
             deleted: map<string, seq<Contact>>, urls: set<string>)
    ensures forall url :: GetContacts(added, url) == AddedFor(target, locallyAdded, url)
    ensures forall url :: GetContacts(modified, url) == RoutedTo(locallyModified, members, url)
    ensures forall url :: GetContacts(deleted, url) == RoutedTo(locallyDeleted, members, url)
    ensures urls == AffectedUrls(target, locallyAdded, locallyModified, locallyDeleted, members)
  {
    added, urls := map[], {};
    var i := 0;
    while i < |locallyAdded|
      invariant 0 <= i <= |locallyAdded|
      invariant added == if i == 0 then map[] else map[target := locallyAdded[..i]]
      invariant urls == if i == 0 then {} else {target}
    {
      assert locallyAdded[..i + 1] == locallyAdded[..i] + [locallyAdded[i]];
      added := added[target := GetContacts(added, target) + [locallyAdded[i]]];
      urls := urls + {target};
      i := i + 1;
    }
    assert locallyAdded[..i] == locallyAdded;
    var modifiedUrls, deletedUrls;
    modified, modifiedUrls := Route(locallyModified, members);
    deleted, deletedUrls := Route(locallyDeleted, members);
    urls := urls + modifiedUrls + deletedUrls;
  }

  /** src/syncer.cpp:263-270: one `upsyncUpdates` per url of `order`. */
  method SendUpdates(q: Syncer, engine: CardDavEngine.CardDav, order: seq<string>, target: string,
                     locallyAdded: seq<Contact>, locallyModified: seq<Contact>, locallyDeleted: seq<Contact>,
                     members: map<string, seq<string>>, added: map<string, seq<Contact>>,
                     modified: map<string, seq<Contact>>, deleted: map<string, seq<Contact>>,
                     uuids: seq<string>, write: Contact -> string)
    requires engine.q == q && |uuids| == |locallyAdded|
    requires forall url :: GetContacts(added, url) == AddedFor(target, locallyAdded, url)
    requires forall url :: GetContacts(modified, url) == RoutedTo(locallyModified, members, url)
    requires forall url :: GetContacts(deleted, url) == RoutedTo(locallyDeleted, members, url)
    modifies engine`upsyncRequests, engine`requests, engine`pending, engine`emitted,
             q`contactUids, q`contactUris, q`contactEtags, q`contactIds, q`addressbookContactGuids, q`contactUnsupportedProperties
    ensures var r := UpsyncEach(old(engine.UpsyncView(false)), order, q.accountId, target, locallyAdded, locallyModified,
                                locallyDeleted, members, uuids, write, engine.canBuild);
      engine.UpsyncView(r.stopped) == r
  {
    ghost var st0 := engine.UpsyncView(false);
    var j := 0;
    while j < |order|
      invariant 0 <= j <= |order|
      invariant var r := UpsyncEach(st0, order[..j], q.accountId, target, locallyAdded, locallyModified,
                                    locallyDeleted, members, uuids, write, engine.canBuild);
        engine.UpsyncView(r.stopped) == r
    {
      ghost var r := UpsyncEach(st0, order[..j], q.accountId, target, locallyAdded, locallyModified,
                                locallyDeleted, members, uuids, write, engine.canBuild);
      UpsyncEachPrefix(st0, order, q.accountId, target, locallyAdded, locallyModified,
                       locallyDeleted, members, uuids, write, engine.canBuild, j);
      SendUpdate(q, engine, order[j], target, locallyAdded, locallyModified, locallyDeleted, members,
                 added, modified, deleted, uuids, write, r);
      j := j + 1;
    }
    assert order[..j] == order;
  }

  /** One step of SendUpdates: the segments of one addressbook. */
  method SendUpdate(q: Syncer, engine: CardDavEngine.CardDav, url: string, target: string,
                    locallyAdded: seq<Contact>, locallyModified: seq<Contact>, locallyDeleted: seq<Contact>,
                    members: map<string, seq<string>>, added: map<string, seq<Contact>>,
                    modified: map<string, seq<Contact>>, deleted: map<string, seq<Contact>>,
                    uuids: seq<string>, write: Contact -> string, ghost r: U.Upsync)
    requires engine.q == q && |uuids| == |locallyAdded|
    requires GetContacts(added, url) == AddedFor(target, locallyAdded, url)
    requires GetContacts(modified, url) == RoutedTo(locallyModified, members, url)
    requires GetContacts(deleted, url) == RoutedTo(locallyDeleted, members, url)
    requires engine.UpsyncView(r.stopped) == r
    modifies engine`upsyncRequests, engine`requests, engine`pending, engine`emitted,
             q`contactUids, q`contactUris, q`contactEtags, q`contactIds, q`addressbookContactGuids, q`contactUnsupportedProperties
    ensures var r' := U.UpsyncUpdates(r, url, q.accountId, AddedFor(target, locallyAdded, url), RoutedTo(locallyModified, members, url),
                                      RoutedTo(locallyDeleted, members, url), UuidsFor(target, uuids, url), write, engine.canBuild);
      engine.UpsyncView(r'.stopped) == r'
  {
    assert engine.UpsyncView(false) == r.(stopped := false);
    UpsyncUpdatesIgnoresStopped(r, url, q.accountId, GetContacts(added, url), GetContacts(modified, url),
                                GetContacts(deleted, url), UuidsFor(target, uuids, url), write, engine.canBuild);
    engine.UpsyncUpdates(url, GetContacts(added, url), GetContacts(modified, url), GetContacts(deleted, url),
                         UuidsFor(target, uuids, url), write);
  }

  /** The target of the local additions (src/syncer.cpp:222-237). */
  method ChooseAddressbook(defaultAddressbook: string, ctags: map<string, string>, syncTokens: map<string, string>)
    returns (r: Option<string>)
    ensures r == AddedContactsAddressbook(defaultAddressbook, ctags, syncTokens)
  {
    var addedContactsAddressbook := defaultAddressbook;
    if addedContactsAddressbook == "" {
      if ctags != map[] {
        addedContactsAddressbook := LeastKey(ctags.Keys);
      }
    }
    if addedContactsAddressbook == "" {
      if syncTokens != map[] {
        addedContactsAddressbook := LeastKey(syncTokens.Keys);
      }
    }
    if addedContactsAddressbook == "" {
      return None;
    }
    return Some(addedContactsAddressbook);
  }

  /** src/syncer.cpp:243-258, one of the two nested loops: each contact
      goes to every addressbook whose membership list holds its guid. */
  method Route(cs: seq<Contact>, members: map<string, seq<string>>)
    returns (routed: map<string, seq<Contact>>, urls: set<string>)
    ensures forall url :: GetContacts(routed, url) == RoutedTo(cs, members, url)
    ensures forall url :: url in urls <==> url in members && RoutedTo(cs, members, url) != []
  {
    routed, urls := map[], {};
    var i := 0;
    while i < |cs|
      invariant 0 <= i <= |cs|
      invariant Routes(routed, urls, cs[..i], members)
    {
      routed, urls := RouteNext(routed, urls, cs, i, members);
      i := i + 1;
    }
    assert cs[..i] == cs;
  }

  /** One pass of Route's outer loop: contact `i` routed on top of the
      routing of the contacts before it. */
  method RouteNext(routed0: map<string, seq<Contact>>, urls0: set<string>, cs: seq<Contact>, i: nat,
                   members: map<string, seq<string>>)
    returns (routed: map<string, seq<Contact>>, urls: set<string>)
    requires i < |cs| && Routes(routed0, urls0, cs[..i], members)
    ensures Routes(routed, urls, cs[..i + 1], members)
  {
    routed, urls := RouteContact(routed0, urls0, cs[i], members);
    assert cs[..i + 1] == cs[..i] + [cs[i]];
    RouteExtends(cs[..i], cs[i], members, routed0, urls0, routed, urls);
  }

  /** The inner loop of Route: one contact, every addressbook. */
  method RouteContact(routed0: map<string, seq<Contact>>, urls0: set<string>, c: Contact,
                      members: map<string, seq<string>>)
    returns (routed: map<string, seq<Contact>>, urls: set<string>)
    ensures forall url :: GetContacts(routed, url) == RouteOne(routed0, c, members, url)
    ensures forall url :: url in urls <==> url in urls0 || (url in members && Guid(c) in GetList(members, url))
  {
    routed, urls := routed0, urls0;
    var guid := Guid(c);
    var rest := members.Keys;
    while rest != {}
      invariant rest <= members.Keys
      invariant RoutedExcept(routed, urls, routed0, urls0, c, members, rest)
      decreases rest
    {
      var url :| url in rest;
      ghost var before, urlsBefore := routed, urls;
      if guid in members[url] {
        routed := routed[url := GetContacts(routed, url) + [c]];
        urls := urls + {url};
      }
      RouteStep(before, urlsBefore, routed, urls, routed0, urls0, c, members, rest, url);
      rest := rest - {url};
    }
  }

  /** The routing of one contact, done for every addressbook except those
      still in `rest`. */
  ghost predicate RoutedExcept(routed: map<string, seq<Contact>>, urls: set<string>,
                               routed0: map<string, seq<Contact>>, urls0: set<string>, c: Contact,
                               members: map<string, seq<string>>, rest: set<string>)
  {
    && (forall url :: url !in rest ==> GetContacts(routed, url) == RouteOne(routed0, c, members, url))
    && (forall url :: url in rest ==> GetContacts(routed, url) == GetContacts(routed0, url))
    && (forall url :: url in urls <==> url in urls0 || (url in members && url !in rest && Guid(c) in GetList(members, url)))
  }

  /** One addressbook of RouteContact's loop. */
  lemma RouteStep(before: map<string, seq<Contact>>, urlsBefore: set<string>,
                  routed: map<string, seq<Contact>>, urls: set<string>,
                  routed0: map<string, seq<Contact>>, urls0: set<string>, c: Contact,
                  members: map<string, seq<string>>, rest: set<string>, url: string)
    requires url in rest && rest <= members.Keys
    requires RoutedExcept(before, urlsBefore, routed0, urls0, c, members, rest)
    requires Guid(c) in members[url] ==> routed == before[url := GetContacts(before, url) + [c]] && urls == urlsBefore + {url}
    requires Guid(c) !in members[url] ==> routed == before && urls == urlsBefore
    ensures RoutedExcept(routed, urls, routed0, urls0, c, members, rest - {url})
  {
    forall u | u != url
      ensures GetContacts(routed, u) == GetContacts(before, u)
    {
    }
  }

  /** `routed` and `urls` are the routing of `cs`: each addressbook's contacts
      and the addressbooks that received any. */
  ghost predicate Routes(routed: map<string, seq<Contact>>, urls: set<string>, cs: seq<Contact>,
                   members: map<string, seq<string>>)
  {
    && (forall url :: GetContacts(routed, url) == RoutedTo(cs, members, url))
    && (forall url :: url in urls <==> url in members && RoutedTo(cs, members, url) != [])
  }

  /** Routing one more contact on top of the routing of `prev` gives the
      routing of `prev + [c]`. */
  lemma RouteExtends(prev: seq<Contact>, c: Contact, members: map<string, seq<string>>,
                     routed0: map<string, seq<Contact>>, urls0: set<string>,
                     routed: map<string, seq<Contact>>, urls: set<string>)
    requires Routes(routed0, urls0, prev, members)
    requires forall url :: GetContacts(routed, url) == RouteOne(routed0, c, members, url)
    requires forall url :: url in urls <==> url in urls0 || (url in members && Guid(c) in GetList(members, url))
    ensures Routes(routed, urls, prev + [c], members)
  {
    assert (prev + [c])[..|prev|] == prev;
    forall url
      ensures RoutedTo(prev + [c], members, url) == RouteOne(routed0, c, members, url)
    {
    }
  }

  /** One contact routed on top of `routed0` for one addressbook. */
  function RouteOne(routed0: map<string, seq<Contact>>, c: Contact, members: map<string, seq<string>>,
                    url: string): seq<Contact>
  {
    GetContacts(routed0, url) + (if Guid(c) in GetList(members, url) then [c] else [])
  }

  lemma UpsyncUpdatesIgnoresStopped(st: U.Upsync, addressbookUrl: string, accountId: nat,
                                    added: seq<Contact>, modified: seq<Contact>, removed: seq<Contact>, uuids: seq<string>,
                                    write: Contact -> string, canBuild: Request -> bool)
    requires |uuids| == |added|
    ensures U.UpsyncUpdates(st, addressbookUrl, accountId, added, modified, removed, uuids, write, canBuild)
      == U.UpsyncUpdates(st.(stopped := false), addressbookUrl, accountId, added, modified, removed, uuids, write, canBuild)
  {
    assert st.(stopped := false).(stopped := false) == st.(stopped := false);
  }

  /** src/syncer.cpp:348-450: every table read from its own blob. */
  method LoadAll(q: Syncer, values: map<string, JsonObject>)
    modifies q`addressbookContactGuids, q`addressbookCtags, q`addressbookSyncTokens, q`contactUids,
             q`contactUris, q`contactEtags, q`contactIds, q`contactUnsupportedProperties
    ensures TablesOf(q) == LoadTables(values)
  {
    q.addressbookContactGuids := LoadListTable(Blob(values, KeyAddressbookContactGuids));
    q.addressbookCtags := LoadStringTable(Blob(values, KeyAddressbookCtags));
    q.addressbookSyncTokens := LoadStringTable(Blob(values, KeyAddressbookSyncTokens));
    q.contactUids := LoadStringTable(Blob(values, KeyContactUids));
    q.contactUris := LoadStringTable(Blob(values, KeyContactUris));
    q.contactEtags := LoadStringTable(Blob(values, KeyContactEtags));
    q.contactIds := LoadStringTable(Blob(values, KeyContactIds));
    q.contactUnsupportedProperties := LoadListTable(Blob(values, KeyContactUnsupportedProperties));
  }

  /** src/syncer.cpp:330-490: load the tables; on a clean sync
      also take the existing contacts of the account as the previous remote
      state. `fetched` is the decoded out-of-band data, `None` when it could
      not be read; `existing` the contacts of the sync target, `None` when
      they could not be fetched. */
  method ReadExtraStateData(q: Syncer, fetched: Option<map<string, JsonObject>>, localSinceValid: bool,
                            existing: Option<seq<Contact>>)
    returns (ok: bool, prevRemote: seq<Contact>, exportedIds: seq<Option<string>>)
    modifies q`addressbookContactGuids, q`addressbookCtags, q`addressbookSyncTokens, q`contactUids,
             q`contactUris, q`contactEtags, q`contactIds, q`contactUnsupportedProperties
    ensures fetched.None? ==> !ok && TablesOf(q) == old(TablesOf(q))
    ensures fetched.Some? ==>
      var t := LoadTables(fetched.value);
      && (localSinceValid ==> ok && TablesOf(q) == t && prevRemote == [] && exportedIds == [])
      && (!localSinceValid && existing.None? ==> !ok && TablesOf(q) == t)
      && (!localSinceValid && existing.Some? ==>
            && ok && prevRemote == OwnContacts(existing.value, q.accountId) && exportedIds == IdsOf(prevRemote)
            && TablesOf(q) == t.(contactIds := InsertIds(t.contactIds, prevRemote)))
  {
    prevRemote, exportedIds := [], [];
    if fetched.None? {
      return false, prevRemote, exportedIds;
    }
    LoadAll(q, fetched.value);
    if !localSinceValid {
      if existing.None? {
        return false, prevRemote, exportedIds;
      }
      prevRemote, exportedIds := PrePopulate(q, existing.value);
    }
    return true, prevRemote, exportedIds;
  }

  /** src/syncer.cpp:452-486. */
  method PrePopulate(q: Syncer, existing: seq<Contact>) returns (prevRemote: seq<Contact>, exportedIds: seq<Option<string>>)
    modifies q`contactIds
    ensures prevRemote == OwnContacts(existing, q.accountId) && exportedIds == IdsOf(prevRemote)
    ensures q.contactIds == InsertIds(old(q.contactIds), prevRemote)
  {
    prevRemote, exportedIds := [], [];
    var i := 0;
    while i < |existing|
      invariant 0 <= i <= |existing|
      invariant prevRemote == OwnContacts(existing[..i], q.accountId) && exportedIds == IdsOf(prevRemote)
      invariant q.contactIds == InsertIds(old(q.contactIds), prevRemote)
    {
      assert existing[..i + 1][..i] == existing[..i];
      var c := existing[i];
      if TestAccountProvenance(c, q.accountId) {
        assert (prevRemote + [c])[..|prevRemote|] == prevRemote;
        prevRemote := prevRemote + [c];
        exportedIds := exportedIds + [c.id];
        q.contactIds := q.contactIds[Guid(c) := U.IdText(c.id)];
      }
      i := i + 1;
    }
    assert existing[..i] == existing;
  }

  /** src/syncer.cpp:367-376 and the five loops like it. */
  method LoadStringTable(obj: JsonObject) returns (m: map<string, string>)
    ensures m == StringTable(obj)
  {
    m := map[];
    var rest := obj.Keys;
    while rest != {}
      invariant rest <= obj.Keys
      invariant m == map k | k in obj.Keys - rest :: StringOf(obj[k])
      decreases rest
    {
      var k :| k in rest;
      m := m[k := StringOf(obj[k])];
      rest := rest - {k};
    }
  }

  /** src/syncer.cpp:348-365 and 433-450. */
  method LoadListTable(obj: JsonObject) returns (m: map<string, seq<string>>)
    ensures m == ListTable(obj)
  {
    m := map[];
    var rest := obj.Keys;
    while rest != {}
      invariant rest <= obj.Keys
      invariant m == map k | k in obj.Keys - rest :: ListOf(obj[k])
      decreases rest
    {
      var k :| k in rest;
      var list := LoadList(obj[k]);
      m := m[k := list];
      rest := rest - {k};
    }
  }

  /** The inner loop: the non-empty texts of an array. */
  method LoadList(v: JsonValue) returns (list: seq<string>)
    ensures list == ListOf(v)
  {
    list := [];
    if !v.JArray? {
      return;
    }
    var i := 0;
    while i < |v.items|
      invariant 0 <= i <= |v.items|
      invariant list == NonEmptyTexts(v.items[..i])
    {
      assert v.items[..i + 1][..i] == v.items[..i];
      var t := TextOf(v.items[i]);
      if t != "" {
        list := list + [t];
      }
      i := i + 1;
    }
    assert v.items[..i] == v.items;
  }

  /** src/syncer.cpp:493-583; the out-of-band store itself is left to
      the caller. */
  method StoreExtraStateData(q: Syncer) returns (values: map<string, JsonObject>)
    ensures values == StoreTables(TablesOf(q))
  {
    var acg := StoreListTable(q.addressbookContactGuids);
    var ac := StoreStringTable(q.addressbookCtags);
    var ast := StoreStringTable(q.addressbookSyncTokens);
    var cui := StoreStringTable(q.contactUids);
    var cu := StoreStringTable(q.contactUris);
    var ce := StoreStringTable(q.contactEtags);
    var ci := StoreStringTable(q.contactIds);
    var cup := StoreListTable(q.contactUnsupportedProperties);
    values := map[KeyAddressbookContactGuids := acg, KeyAddressbookCtags := ac, KeyAddressbookSyncTokens := ast,
                  KeyContactUids := cui, KeyContactUris := cu, KeyContactEtags := ce, KeyContactIds := ci,
                  KeyContactUnsupportedProperties := cup];
  }

  method StoreStringTable(m: map<string, string>) returns (obj: JsonObject)
    ensures obj == StringObject(m)
  {
    obj := map[];
    var rest := m.Keys;
    while rest != {}
      invariant rest <= m.Keys
      invariant obj == map k | k in m.Keys - rest :: JString(m[k])
      decreases rest
    {
      var k :| k in rest;
      obj := obj[k := JString(m[k])];
      rest := rest - {k};
    }
  }

  method StoreListTable(m: map<string, seq<string>>) returns (obj: JsonObject)
    ensures obj == ListObject(m)
  {
    obj := map[];
    var rest := m.Keys;
    while rest != {}
      invariant rest <= m.Keys
      invariant obj == map k | k in m.Keys - rest :: JArray(StringArray(m[k]))
      decreases rest
    {
      var k :| k in rest;
      obj := obj[k := JArray(StringArray(m[k]))];
      rest := rest - {k};
    }
  }

  /** Once a contact without an id stops the recording, the rest records
      nothing. */
  lemma {:induction false} RecordIdsStopped(ids: map<string, string>, cs: seq<Contact>, i: nat)
    requires i <= |cs| && !RecordIds(ids, cs[..i]).1
    ensures RecordIds(ids, cs) == RecordIds(ids, cs[..i])
  {
    if i < |cs| {
      var n := |cs| - 1;
      assert cs[..n][..i] == cs[..i];
      RecordIdsStopped(ids, cs[..n], i);
    } else {
      assert cs[..i] == cs;
    }
  }
}
