/** The string-level part of the vCard codec (CardDavVCardConverter,
    src/carddav.cpp:70-248): which vCard properties the contacts framework
    may import and export, how an unsupported property is cached as text on
    import, and how the cached texts are stitched back into an exported
    vCard. Reading and writing vCards (QVersit) is a foreign library; its
    outputs enter the model as the fields of `VersitProperty` and
    `VersitDocument` and as the `exported` text. */
module VCardConverter {
  import opened Strings
  import opened Optional
  import opened ParserTypes

  /** A vCard property as the reader produced it, with what the foreign
      library makes of it: `serialized` is what the writer emits for a
      vCard 3.0 document holding only this property, `details` are the
      details the default importer creates for it, and `avatar` is what the
      photo handler extracts from it (`None` for an empty avatar). */
  datatype VersitProperty = VersitProperty(
    name: string, serialized: string, details: seq<Detail>, avatar: Option<Detail>)

  /** One document the vCard reader found; `isVCard` is false for a document
      the contact importer refuses. */
  datatype VersitDocument = VersitDocument(isVCard: bool, properties: seq<VersitProperty>)

  /** The line terminator of vCard text. */
  const CRLF := "\r\n"

  /** The properties the contacts framework handles (src/carddav.cpp:79-92):
      seventeen distinct upper-case names. */
  function SupportedPropertyNames(): seq<string>
  {
    ["VERSION", "PRODID", "REV", "N", "FN", "NICKNAME", "BDAY", "X-GENDER",
     "EMAIL", "TEL", "ADR", "URL", "PHOTO", "ORG", "TITLE", "ROLE", "UID"]
  }

  lemma SupportedPropertyNamesShape()
    ensures var r := SupportedPropertyNames();
      && |r| == 17
      && (forall i, j :: 0 <= i < j < |r| ==> r[i] != r[j])
      && (forall i :: 0 <= i < |r| ==> ToUpper(r[i]) == r[i])
  {
  }

  /** A property name is supported when its upper-cased form is listed. */
  predicate IsSupported(name: string)
  {
    ToUpper(name) in SupportedPropertyNames()
  }

  lemma ToUpperIdempotent(s: string)
    ensures ToUpper(ToUpper(s)) == ToUpper(s)
  {
  }

  /** The allow-list ignores letter case: a name and its upper-cased form
      are supported alike. */
  lemma SupportIgnoresCase(name: string)
    ensures IsSupported(ToUpper(name)) == IsSupported(name)
  {
    ToUpperIdempotent(name);
  }

  /** src/carddav.cpp:165-187, after the writer has run: the text strictly
      between the first "VERSION:3.0" and the first "END:VCARD", trimmed; ""
      when either marker is missing or they are out of order. */
  function ConvertPropertyToString(written: string): string
  {
    var headerIdx := IndexOf(written, "VERSION:3.0") + 11;
    var footerIdx := IndexOf(written, "END:VCARD");
    if headerIdx > 11 && footerIdx > 0 && footerIdx > headerIdx then
      Trimmed(written[headerIdx..footerIdx])
    else ""
  }

  /** What the cached text is: with "VERSION:3.0" first found at `v > 0`
      and "END:VCARD" first found at `f` beyond it, the trimmed infix
      between them; with either marker absent, or at the very start, or the
      footer not past the header, nothing. */
  lemma PropertyStringBetweenMarkers(written: string, v: int, f: int)
    requires v == IndexOf(written, "VERSION:3.0") && f == IndexOf(written, "END:VCARD")
    ensures 0 < v && v + 11 < f ==>
      && ConvertPropertyToString(written) == Trimmed(written[v + 11..f])
      && OccursAt(written, "VERSION:3.0", v) && OccursAt(written, "END:VCARD", f)
    ensures !Contains(written, "VERSION:3.0") || !Contains(written, "END:VCARD") ==> ConvertPropertyToString(written) == ""
    ensures v == 0 || f <= v + 11 ==> ConvertPropertyToString(written) == ""
  {
    assert |"VERSION:3.0"| == 11;
    if !(0 < v && v + 11 < f) {
      assert ConvertPropertyToString(written) == "";
    }
  }

  /** The details a property contributes to the imported contact
      (src/carddav.cpp:189-216): the photo handler's avatar is appended to
      what the default importer made of PHOTO; a supported property keeps
      the default details; an unsupported one contributes none. */
  function HandledDetails(p: VersitProperty): seq<Detail>
  {
    var name := ToUpper(p.name);
    if name == "PHOTO" then p.details + (if p.avatar.Some? then [p.avatar.value] else [])
    else if IsSupported(name) then p.details
    else []
  }

  /** The text cached for one property: none for a supported name. */
  function CachedText(p: VersitProperty): seq<string>
  {
    if IsSupported(ToUpper(p.name)) then [] else [ConvertPropertyToString(p.serialized)]
  }

  /** On import, PHOTO and allow-listed properties are left to the
      framework and cache nothing, while an unsupported property is cached as
      its text and its details are cleared. */
  lemma PropertyCaching(p: VersitProperty)
    ensures ToUpper(p.name) == "PHOTO" || IsSupported(p.name) ==> CachedText(p) == []
    ensures !IsSupported(p.name) ==>
      CachedText(p) == [ConvertPropertyToString(p.serialized)] && HandledDetails(p) == []
  {
    SupportIgnoresCase(p.name);
    assert "PHOTO" in SupportedPropertyNames();
  }

  /** The text that import caches for each unsupported property, in
      encounter order. */
  function Cached(ps: seq<VersitProperty>): seq<string>
  {
    if ps == [] then []
    else
      var last := ps[|ps| - 1];
      Cached(ps[..|ps| - 1]) + CachedText(last)
  }

  function ImportedDetails(ps: seq<VersitProperty>): seq<Detail>
  {
    if ps == [] then [] else ImportedDetails(ps[..|ps| - 1]) + HandledDetails(ps[|ps| - 1])
  }

  lemma ImportStep(ps: seq<VersitProperty>, i: nat)
    requires i < |ps|
    ensures ImportedDetails(ps[..i + 1]) == ImportedDetails(ps[..i]) + HandledDetails(ps[i])
    ensures Cached(ps[..i + 1]) == Cached(ps[..i]) + CachedText(ps[i])
  {
    assert ps[..i + 1][..i] == ps[..i];
  }

  /** Every detail marked modifiable (src/carddav.cpp:126-130). */
  function MarkModifiable(ds: seq<Detail>): (r: seq<Detail>)
    ensures |r| == |ds|
    ensures forall i :: 0 <= i < |ds| ==> r[i] == ds[i].(modifiable := true)
  {
    seq(|ds|, i requires 0 <= i < |ds| => ds[i].(modifiable := true))
  }

  lemma {:induction false} MarkModifiableKeepsGuid(ds: seq<Detail>)
    ensures GuidIn(MarkModifiable(ds)) == GuidIn(ds)
  {
    if ds != [] {
      assert MarkModifiable(ds)[1..] == MarkModifiable(ds[1..]);
      MarkModifiableKeepsGuid(ds[1..]);
    }
  }

  /** The properties kept for export (src/carddav.cpp:236-248). */
  function SupportedOnly(ps: seq<VersitProperty>): seq<VersitProperty>
  {
    if ps == [] then []
    else SupportedOnly(ps[..|ps| - 1]) + (if IsSupported(ps[|ps| - 1].name) then [ps[|ps| - 1]] else [])
  }

  /** Export emits exactly the allow-listed properties it was given. */
  lemma {:induction false} SupportedOnlyMembers(ps: seq<VersitProperty>, p: VersitProperty)
    ensures p in SupportedOnly(ps) <==> p in ps && IsSupported(p.name)
  {
    if ps != [] {
      SupportedOnlyMembers(ps[..|ps| - 1], p);
      assert ps == ps[..|ps| - 1] + [ps[|ps| - 1]];
    }
  }

  /** One unsupported property put back just before the last "END:VCARD",
      provided that marker is not at the very start. */
  function InsertBeforeEnd(s: string, prop: string): string
  {
    var endIdx := LastIndexOf(s, "END:VCARD");
    if endIdx > 0 then s[..endIdx] + (prop + CRLF) + s[endIdx..] else s
  }

  function Stitch(s: string, props: seq<string>): string
    decreases |props|
  {
    if props == [] then s else Stitch(InsertBeforeEnd(s, props[0]), props[1..])
  }

  /** Each property followed by CRLF, in order. */
  function Lines(props: seq<string>): string
  {
    if props == [] then "" else props[0] + CRLF + Lines(props[1..])
  }

  /** The last occurrence is the one with no occurrence after it. */
  lemma LastIndexOfIs(s: string, p: string, x: int)
    requires OccursAt(s, p, x) && forall j :: x < j ==> !OccursAt(s, p, j)
    ensures LastIndexOf(s, p) == x
  {
    assert Contains(s, p);
  }

  /** Inserting text before the last "END:VCARD" keeps that marker the last
      one. */
  lemma {:induction false} InsertKeepsLastEnd(a: string, mid: string, b: string, ins: string)
    requires LastIndexOf(a + mid + b, "END:VCARD") == |a| + |mid|
    ensures LastIndexOf(a + (mid + ins) + b, "END:VCARD") == |a| + |mid| + |ins|
  {
    var p := "END:VCARD";
    var s := a + mid + b;
    var t := a + (mid + ins) + b;
    var x := |a| + |mid|;
    var d := |ins|;
    assert OccursAt(s, p, x);
    assert t[x + d..x + d + |p|] == s[x..x + |p|];
    forall j | x + d < j ensures !OccursAt(t, p, j) {
      if OccursAt(t, p, j) {
        assert t[j..j + |p|] == s[j - d..j - d + |p|];
        assert OccursAt(s, p, j - d);
      }
    }
    LastIndexOfIs(t, p, x + d);
  }

  /** The stitched vCard (src/carddav.cpp:150-157): with the last
      "END:VCARD" at `e > 0`, every cached property plus CRLF sits just
      before it, in their original order; otherwise the export is unchanged. */
  lemma {:induction false} StitchPlacesBeforeEnd(s: string, props: seq<string>)
    ensures var e := LastIndexOf(s, "END:VCARD");
      && (e > 0 ==> Stitch(s, props) == s[..e] + Lines(props) + s[e..])
      && (e <= 0 ==> Stitch(s, props) == s)
  {
    var e := LastIndexOf(s, "END:VCARD");
    if e > 0 {
      assert s[..e] + "" + s[e..] == s;
      StitchAfter(s[..e], "", props, s[e..]);
      assert "" + Lines(props) == Lines(props);
    } else {
      StitchUnchanged(s, props);
    }
  }

  lemma {:induction false} StitchAfter(a: string, mid: string, rest: seq<string>, b: string)
    requires |a| > 0
    requires LastIndexOf(a + mid + b, "END:VCARD") == |a| + |mid|
    decreases |rest|
    ensures Stitch(a + mid + b, rest) == a + (mid + Lines(rest)) + b
  {
    if rest == [] {
      assert mid + Lines(rest) == mid;
    } else {
      StitchStep(a, mid, rest, b);
      StitchAfter(a, mid + (rest[0] + CRLF), rest[1..], b);
    }
  }

  lemma StitchStep(a: string, mid: string, rest: seq<string>, b: string)
    requires |a| > 0 && rest != []
    requires LastIndexOf(a + mid + b, "END:VCARD") == |a| + |mid|
    ensures var t := a + (mid + (rest[0] + CRLF)) + b;
      && Stitch(a + mid + b, rest) == Stitch(t, rest[1..])
      && LastIndexOf(t, "END:VCARD") == |a| + |mid + (rest[0] + CRLF)|
      && mid + Lines(rest) == (mid + (rest[0] + CRLF)) + Lines(rest[1..])
  {
    StitchUnfold(a + mid + b, rest);
    InsertStep(a, mid, b, rest[0]);
    InsertKeepsLastEnd(a, mid, b, rest[0] + CRLF);
    LinesUnfold(mid, rest);
  }

  lemma StitchUnfold(s: string, rest: seq<string>)
    requires rest != []
    ensures Stitch(s, rest) == Stitch(InsertBeforeEnd(s, rest[0]), rest[1..])
  {
  }

  lemma LinesUnfold(mid: string, rest: seq<string>)
    requires rest != []
    ensures mid + Lines(rest) == (mid + (rest[0] + CRLF)) + Lines(rest[1..])
  {
  }

  lemma InsertStep(a: string, mid: string, b: string, p: string)
    requires |a| > 0
    requires LastIndexOf(a + mid + b, "END:VCARD") == |a| + |mid|
    ensures InsertBeforeEnd(a + mid + b, p) == a + (mid + (p + CRLF)) + b
  {
    var s := a + mid + b;
    var e := |a| + |mid|;
    assert s[..e] == a + mid && s[e..] == b;
  }

  lemma {:induction false} StitchUnchanged(s: string, props: seq<string>)
    requires LastIndexOf(s, "END:VCARD") <= 0
    decreases |props|
    ensures Stitch(s, props) == s
  {
    if props != [] {
      StitchUnchanged(s, props[1..]);
    }
  }

  /** The converter object: the unsupported properties cached per UID during
      one import, and those of the document being imported. */
  class CardDavVCardConverter {
    var unsupportedProperties: map<string, seq<string>>
    var tempUnsupportedProperties: seq<string>

    /** Between conversions both caches are empty. */
    predicate Idle()
      reads this
    {
      unsupportedProperties == map[] && tempUnsupportedProperties == []
    }

    constructor ()
      ensures Idle()
    {
      unsupportedProperties := map[];
      tempUnsupportedProperties := [];
    }

    /** The importer's property hook (src/carddav.cpp:189-216). It always
        claims the property; it returns the details the contact receives. */
    method PropertyProcessed(property: VersitProperty, updatedDetails: seq<Detail>)
      returns (alreadyProcessed: bool, details: seq<Detail>)
      modifies this`tempUnsupportedProperties
      ensures alreadyProcessed
      ensures updatedDetails == property.details ==> details == HandledDetails(property)
      ensures tempUnsupportedProperties == old(tempUnsupportedProperties) + CachedText(property)
    {
      var propertyName := ToUpper(property.name);
      ToUpperIdempotent(property.name);
      details := updatedDetails;
      if propertyName == "PHOTO" {
        if property.avatar.Some? {
          details := details + [property.avatar.value];
        }
        alreadyProcessed := true;
        return;
      } else if propertyName in SupportedPropertyNames() {
        alreadyProcessed := true;
        return;
      }
      alreadyProcessed := true;
      var unsupportedProperty := ConvertPropertyToString(property.serialized);
      tempUnsupportedProperties := tempUnsupportedProperties + [unsupportedProperty];
      details := [];
    }

    /** The importer's document hook (src/carddav.cpp:218-230): the cached
        texts are filed under the contact's UID, or dropped when it has
        none. */
    method DocumentProcessed(c: Contact)
      modifies this
      ensures tempUnsupportedProperties == []
      ensures unsupportedProperties ==
        if Guid(c) == "" then old(unsupportedProperties)
        else old(unsupportedProperties)[Guid(c) := old(tempUnsupportedProperties)]
    {
      var uid := Guid(c);
      if uid != "" {
        unsupportedProperties := unsupportedProperties[uid := tempUnsupportedProperties];
      }
      tempUnsupportedProperties := [];
    }

    /** The contact importer run over one document, calling the two hooks
        (the importer itself is the foreign library's). */
    method ImportDocument(doc: VersitDocument) returns (contact: Contact)
      requires tempUnsupportedProperties == []
      modifies this
      ensures contact == Contact(None, ImportedDetails(doc.properties))
      ensures tempUnsupportedProperties == []
      ensures unsupportedProperties ==
        if Guid(contact) == "" then old(unsupportedProperties)
        else old(unsupportedProperties)[Guid(contact) := Cached(doc.properties)]
    {
      var ps := doc.properties;
      var details: seq<Detail> := [];
      var i := 0;
      while i < |ps|
        invariant 0 <= i <= |ps|
        invariant details == ImportedDetails(ps[..i])
        invariant tempUnsupportedProperties == Cached(ps[..i])
        invariant unsupportedProperties == old(unsupportedProperties)
      {
        ImportStep(ps, i);
        var _, d := PropertyProcessed(ps[i], ps[i].details);
        details := details + d;
        i := i + 1;
      }
      assert ps[..i] == ps;
      contact := Contact(None, details);
      DocumentProcessed(contact);
    }

    /** src/carddav.cpp:94-134: the import succeeds only for exactly one
        document that yields exactly one contact; it returns the contact with
        every detail modifiable and the properties cached under its UID
        (none when the UID is empty). The caches are empty again afterwards. */
    method ConvertVCardToContact(docs: seq<VersitDocument>)
      returns (ok: bool, contact: Contact, unsupported: seq<string>)
      requires Idle()
      modifies this
      ensures Idle()
      ensures ok <==> |docs| == 1 && docs[0].isVCard
      ensures ok ==> contact == Contact(None, MarkModifiable(ImportedDetails(docs[0].properties)))
      ensures ok ==> unsupported == if Guid(contact) == "" then [] else Cached(docs[0].properties)
    {
      unsupportedProperties := map[];
      contact, unsupported := Contact(None, []), [];
      if |docs| != 1 {
        ok := false;
        return;
      }
      if !docs[0].isVCard {
        ok := false;
        return;
      }
      var imported := ImportDocument(docs[0]);
      var uid := Guid(imported);
      unsupported := if uid in unsupportedProperties then unsupportedProperties[uid] else [];
      unsupportedProperties := map[];
      contact := Contact(imported.id, MarkModifiable(imported.details));
      MarkModifiableKeepsGuid(imported.details);
      ok := true;
    }

    /** The exporter's detail hook (src/carddav.cpp:236-248): a backwards
        pass removing every property that is not allow-listed. */
    method DetailProcessed(toBeAdded: seq<VersitProperty>) returns (kept: seq<VersitProperty>)
      ensures kept == SupportedOnly(toBeAdded)
    {
      kept := toBeAdded;
      var i := |toBeAdded| - 1;
      while i >= 0
        invariant -1 <= i < |toBeAdded|
        invariant kept == toBeAdded[..i + 1] + SupportedOnlyFrom(toBeAdded, i + 1)
      {
        if !(ToUpper(kept[i].name) in SupportedPropertyNames()) {
          kept := kept[..i] + kept[i + 1..];
        }
        assert toBeAdded[..i + 1] == toBeAdded[..i] + [toBeAdded[i]];
        i := i - 1;
      }
      SupportedOnlyFromIs(toBeAdded, 0);
    }

    /** src/carddav.cpp:136-163, after the writer has run: each cached
        property is inserted before the last "END:VCARD" in turn. */
    method ConvertContactToVCard(exported: string, unsupportedProperties: seq<string>) returns (retn: string)
      ensures retn == Stitch(exported, unsupportedProperties)
    {
      retn := exported;
      var i := 0;
      while i < |unsupportedProperties|
        invariant 0 <= i <= |unsupportedProperties|
        invariant Stitch(retn, unsupportedProperties[i..]) == Stitch(exported, unsupportedProperties)
      {
        assert unsupportedProperties[i..][1..] == unsupportedProperties[i + 1..];
        var endIdx := LastIndexOf(retn, "END:VCARD");
        if endIdx > 0 {
          var ecrlf := unsupportedProperties[i] + CRLF;
          retn := retn[..endIdx] + ecrlf + retn[endIdx..];
        }
        i := i + 1;
      }
    }
  }

  /** The supported properties among `ps[from..]`, in order. */
  function SupportedOnlyFrom(ps: seq<VersitProperty>, from: nat): seq<VersitProperty>
    requires from <= |ps|
    decreases |ps| - from
  {
    if from == |ps| then []
    else (if IsSupported(ps[from].name) then [ps[from]] else []) + SupportedOnlyFrom(ps, from + 1)
  }

  lemma {:induction false} SupportedOnlyFromIs(ps: seq<VersitProperty>, from: nat)
    requires from <= |ps|
    decreases |ps| - from
    ensures SupportedOnly(ps) == SupportedOnly(ps[..from]) + SupportedOnlyFrom(ps, from)
  {
    if from < |ps| {
      SupportedOnlyFromIs(ps, from + 1);
      assert ps[..from + 1][..from] == ps[..from];
      assert SupportedOnly(ps[..from + 1]) == SupportedOnly(ps[..from]) + (if IsSupported(ps[from].name) then [ps[from]] else []);
    } else {
      assert ps[..from] == ps;
    }
  }
}
