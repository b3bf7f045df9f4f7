/** The value types the reply parser hands to the sync engine
    (src/replyparser_p.h), and the contact record they carry. */
module ParserTypes {
  import opened Optional

  /** What a server row says happened to a contact. A default-constructed
      row is `Uninitialized`. */
  datatype ModificationType = Uninitialized | Addition | Modification | Deletion

  /** The enumerator's integer value: `Uninitialized` is 0 and the other
      three follow in declaration order. */
  function Ordinal(t: ModificationType): (n: nat)
    ensures n < 4
    ensures n == 0 <==> t == Uninitialized
  {
    match t
    case Uninitialized => 0
    case Addition => 1
    case Modification => 2
    case Deletion => 3
  }

  /** The inverse of `Ordinal`, as a cast from int would be; values outside
      the enumeration have no enumerator. */
  function FromOrdinal(n: int): (r: Option<ModificationType>)
    ensures r.Some? <==> 0 <= n < 4
    ensures r.Some? ==> Ordinal(r.value) == n
  {
    if n == 0 then Some(Uninitialized)
    else if n == 1 then Some(Addition)
    else if n == 2 then Some(Modification)
    else if n == 3 then Some(Deletion)
    else None
  }

  /** The four enumerators are distinct and there are no others. */
  lemma OrdinalRoundTrip(t: ModificationType)
    ensures FromOrdinal(Ordinal(t)) == Some(t)
  {
  }

  /** One addressbook collection found on the server. An empty string in any
      field means the server did not report it. */
  datatype AddressBookInformation = AddressBookInformation(
    url: string, displayName: string, ctag: string, syncToken: string)

  /** One row of a delta or metadata report. `guid` is the device-local,
      account-prefixed identifier ("<accountId>:<UID>"), or "" when the row's
      uri is not known locally. */
  datatype ContactInformation = ContactInformation(
    modType: ModificationType, uri: string, guid: string, etag: string)

  /** The value of `ContactInformation()`. */
  const DefaultContactInformation := ContactInformation(Uninitialized, "", "", "")

  /** One detail of a contact, as the contacts framework stores it. */
  datatype Detail = Detail(kind: string, value: string, modifiable: bool)

  /** The detail kind of QContactGuid, which holds the contact's UID (or,
      once imported, its account-prefixed guid). */
  const GuidKind := "Guid"

  /** A contact: its local database id (`None` for a null QContactId) and its
      details in order. */
  datatype Contact = Contact(id: Option<string>, details: seq<Detail>)

  /** `contact.detail<QContactGuid>().guid()`: the value of the first guid
      detail, or "" when there is none. */
  function Guid(c: Contact): string
  {
    GuidIn(c.details)
  }

  function GuidIn(ds: seq<Detail>): string
  {
    if ds == [] then "" else if ds[0].kind == GuidKind then ds[0].value else GuidIn(ds[1..])
  }

  /** `guid.setGuid(g); contact.saveDetail(&guid)`: the first guid detail
      takes the new value, or a guid detail is added when there was none. */
  function WithGuid(c: Contact, g: string): (r: Contact)
    ensures Guid(r) == g && r.id == c.id
  {
    Contact(c.id, WithGuidIn(c.details, g))
  }

  function WithGuidIn(ds: seq<Detail>, g: string): (r: seq<Detail>)
    ensures GuidIn(r) == g
  {
    if ds == [] then [Detail(GuidKind, g, false)]
    else if ds[0].kind == GuidKind then [ds[0].(value := g)] + ds[1..]
    else [ds[0]] + WithGuidIn(ds[1..], g)
  }

  /** Saving a guid changes no other detail: the saved detail replaces the
      first guid detail in place, or is appended. */
  lemma {:induction false} WithGuidKeepsOtherDetails(ds: seq<Detail>, g: string)
    ensures var r := WithGuidIn(ds, g);
      (forall i :: 0 <= i < |ds| && ds[i].kind != GuidKind ==> i < |r| && r[i] == ds[i])
      && |r| == (if exists i :: 0 <= i < |ds| && ds[i].kind == GuidKind then |ds| else |ds| + 1)
  {
    if ds != [] && ds[0].kind != GuidKind {
      WithGuidKeepsOtherDetails(ds[1..], g);
      var r := WithGuidIn(ds, g);
      assert forall i :: 1 <= i < |ds| ==> ds[i] == ds[1..][i - 1];
      if exists i :: 0 <= i < |ds| && ds[i].kind == GuidKind {
        var i :| 0 <= i < |ds| && ds[i].kind == GuidKind;
        assert ds[1..][i - 1].kind == GuidKind;
      }
    }
  }

  /** A fetched contact together with the unsupported vCard properties that
      were cached for it, in their original order, and its server etag. */
  datatype FullContactInformation = FullContactInformation(
    contact: Contact, unsupportedProperties: seq<string>, etag: string)

  /** How the server answered the current-user-principal request. */
  datatype ResponseType = UserPrincipalResponse | AddressbookInformationResponse
}
