/** The sync state a `Syncer` keeps for one account (the `m_` tables of
    src/syncer.cpp that the reply parser and the CardDAV engine read and
    write through their `q` pointer), and the QMap/QList operations they
    are read and written with. */
module SyncState {
  import opened Optional
  import opened ParserTypes

  /** `QMap<QString, QString>::value(k)`: the stored string, or "" for a
      missing key. */
  function Get(m: map<string, string>, k: string): string
  {
    if k in m then m[k] else ""
  }

  /** The side effect of reading `m[k]` through the non-const `operator[]`:
      a missing key is inserted with an empty value. */
  function Touch(m: map<string, string>, k: string): map<string, string>
  {
    if k in m then m else m[k := ""]
  }

  /** Reading through `operator[]` adds the key and changes no value. */
  lemma TouchRule(m: map<string, string>, k: string)
    ensures Touch(m, k).Keys == m.Keys + {k}
    ensures forall x :: Get(Touch(m, k), x) == Get(m, x)
  {
  }

  /** `QMap<QString, QStringList>::value(k)`. */
  function GetList(m: map<string, seq<string>>, k: string): seq<string>
  {
    if k in m then m[k] else []
  }

  function TouchList(m: map<string, seq<string>>, k: string): map<string, seq<string>>
  {
    if k in m then m else m[k := []]
  }

  lemma TouchListRule(m: map<string, seq<string>>, k: string)
    ensures TouchList(m, k).Keys == m.Keys + {k}
    ensures forall x :: GetList(TouchList(m, k), x) == GetList(m, x)
  {
  }

  /** `QMap<QString, QList<ContactInformation>>::value(k)`. */
  function GetInfos(m: map<string, seq<ContactInformation>>, k: string): seq<ContactInformation>
  {
    if k in m then m[k] else []
  }

  /** `QMap<QString, QMap<QString, int>>::value(k)`. */
  function GetIndices(m: map<string, map<string, int>>, k: string): map<string, int>
  {
    if k in m then m[k] else map[]
  }

  /** `QList::removeOne(x)`: the first occurrence of `x` is removed. */
  function RemoveOne<T(==)>(s: seq<T>, x: T): seq<T>
  {
    if s == [] then [] else if s[0] == x then s[1..] else [s[0]] + RemoveOne(s[1..], x)
  }

  /** `removeOne` leaves a list without `x` alone. */
  lemma {:induction false} RemoveOneAbsent<T>(s: seq<T>, x: T)
    requires x !in s
    ensures RemoveOne(s, x) == s
  {
    if s != [] {
      assert s == [s[0]] + s[1..];
      RemoveOneAbsent(s[1..], x);
    }
  }

  /** When the first `x` is at index `i`, `removeOne` takes out exactly that
      element and keeps the rest in order. */
  lemma {:induction false} RemoveOneAt<T>(s: seq<T>, x: T, i: nat)
    requires i < |s| && s[i] == x && x !in s[..i]
    ensures RemoveOne(s, x) == s[..i] + s[i + 1..]
  {
    if i > 0 {
      assert s[0] in s[..i];
      assert s[1..][..i - 1] == s[1..i];
      RemoveOneAt(s[1..], x, i - 1);
      assert s[..i] == [s[0]] + s[1..i];
    }
  }

  /** `removeOne` removes one occurrence of `x` and nothing else. */
  lemma {:induction false} RemoveOneCount<T>(s: seq<T>, x: T)
    ensures multiset(RemoveOne(s, x)) == multiset(s) - multiset{x}
  {
    if s != [] {
      assert s == [s[0]] + s[1..];
      if s[0] != x {
        RemoveOneCount(s[1..], x);
        assert RemoveOne(s, x) == [s[0]] + RemoveOne(s[1..], x);
      }
    }
  }

  /** Each uri of `idx` names the position of a row with that uri. */
  predicate IndexPoints(idx: map<string, int>, rows: seq<ContactInformation>)
  {
    forall uri :: uri in idx ==> 0 <= idx[uri] < |rows| && rows[idx[uri]].uri == uri
  }

  /** Every addressbook's index points into that addressbook's rows. */
  predicate AllIndicesPoint(indices: map<string, map<string, int>>, rows: map<string, seq<ContactInformation>>)
  {
    forall url | url in indices :: IndexPoints(indices[url], GetInfos(rows, url))
  }

  /** What the syncer reports to its caller and to the account framework. */
  datatype SyncerSignal =
    | SyncFailed
    | SyncSucceeded
    | CredentialsNeedUpdate  // m_auth->setCredentialsNeedUpdate (src/syncer.cpp:157)
    | SyncStatePurged        // purgeSyncStateData (src/syncer.cpp:159)

  /** The tables of one sync session. Keys of the contact tables are
      device-local guids ("<accountId>:<UID>"), keys of the addressbook
      tables are addressbook URLs (paths on the server). */
  class Syncer {
    const accountId: nat
    var defaultAddressbook: string
    var addressbookCtags: map<string, string>
    var addressbookSyncTokens: map<string, string>
    var addressbookContactGuids: map<string, seq<string>>
    var contactUids: map<string, string>
    var contactUris: map<string, string>
    var contactEtags: map<string, string>
    var contactIds: map<string, string>
    var contactUnsupportedProperties: map<string, seq<string>>
    var serverAdditions: map<string, seq<ContactInformation>>
    var serverModifications: map<string, seq<ContactInformation>>
    var serverDeletions: map<string, seq<ContactInformation>>
    var serverAdditionIndices: map<string, map<string, int>>
    var serverModificationIndices: map<string, map<string, int>>
    var signals: seq<SyncerSignal>

    /** Every index recorded for a server addition or modification points
        at the row of that addressbook's list that carries the indexed uri
        (the list is only ever appended to, and the index is its length
        before the append). */
    predicate IndicesValid()
      reads this`serverAdditions, this`serverModifications, this`serverAdditionIndices, this`serverModificationIndices
    {
      AllIndicesPoint(serverAdditionIndices, serverAdditions) && AllIndicesPoint(serverModificationIndices, serverModifications)
    }

    constructor (accountId: nat)
      ensures this.accountId == accountId && defaultAddressbook == ""
      ensures addressbookCtags == map[] && addressbookSyncTokens == map[] && addressbookContactGuids == map[]
      ensures contactUids == map[] && contactUris == map[] && contactEtags == map[] && contactIds == map[]
      ensures contactUnsupportedProperties == map[]
      ensures serverAdditions == map[] && serverModifications == map[] && serverDeletions == map[]
      ensures serverAdditionIndices == map[] && serverModificationIndices == map[]
      ensures signals == [] && IndicesValid()
    {
      this.accountId := accountId;
      defaultAddressbook := "";
      addressbookCtags, addressbookSyncTokens, addressbookContactGuids := map[], map[], map[];
      contactUids, contactUris, contactEtags, contactIds := map[], map[], map[], map[];
      contactUnsupportedProperties := map[];
      serverAdditions, serverModifications, serverDeletions := map[], map[], map[];
      serverAdditionIndices, serverModificationIndices := map[], map[];
      signals := [];
    }
  }
}
