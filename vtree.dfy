/** The reply documents as the parser sees them. An XML document is an
    element tree (local names only; namespaces play no part in any lookup),
    and `elementToVMap`/`xmlToVMap` (src/replyparser.cpp:60-114) turn it into
    nested QVariant maps. The reader's token stream, which
    `parseAddressbookHome` walks instead, is `Tokens` of the same tree. */
module VTree {
  import opened Optional

  datatype Attribute = Attribute(name: string, value: string)

  /** A piece of an element's content, in document order: a run of
      character data (whitespace between child elements included) or a child
      element. Comments and processing instructions are not represented;
      every reader loop here skips them. */
  datatype Node = Text(text: string) | Child(element: Element)

  datatype Element = Element(name: string, attributes: seq<Attribute>, content: seq<Node>)

  /** A QVariant as the parser uses it: invalid (what `value()` returns for a
      missing key), a string, a map or a list. */
  datatype Variant = Invalid | VString(str: string) | VMap(fields: map<string, Variant>) | VList(items: seq<Variant>)

  /** The key under which an element's character data is stored. No XML name
      can take this form, so it never clashes with an attribute or child. */
  const TextKey := "@text"

  /** The element's attributes, inserted in order (a later duplicate name
      overwrites an earlier one). */
  function AttributesMap(attrs: seq<Attribute>): map<string, Variant>
  {
    if attrs == [] then map[]
    else AttributesMap(attrs[..|attrs| - 1])[attrs[|attrs| - 1].name := VString(attrs[|attrs| - 1].value)]
  }

  /** A non-empty character chunk replaces the stored text. */
  function AddText(acc: map<string, Variant>, t: string): map<string, Variant>
  {
    if t != "" then acc[TextKey := VString(t)] else acc
  }

  /** Storing a converted child under its name: a new name gets the child's
      map; an existing map becomes a two-element list; an existing list is
      extended; any other existing value (an attribute's string) is dropped
      and replaced by a one-element list. */
  function Absorb(acc: map<string, Variant>, name: string, sub: map<string, Variant>): map<string, Variant>
  {
    if name in acc then
      var existing := acc[name];
      var items := if existing.VMap? then [existing] else if existing.VList? then existing.items else [];
      acc[name := VList(items + [VMap(sub)])]
    else acc[name := VMap(sub)]
  }

  /** The map `elementToVMap` builds for an element. */
  function ElementMap(e: Element): map<string, Variant>
    decreases e, |e.content| + 1
  {
    ContentMap(e, |e.content|)
  }

  /** The map after the attributes and the first `k` content nodes. */
  function ContentMap(e: Element, k: nat): map<string, Variant>
    requires k <= |e.content|
    decreases e, k
  {
    if k == 0 then AttributesMap(e.attributes)
    else
      var acc := ContentMap(e, k - 1);
      match e.content[k - 1]
      case Text(t) => AddText(acc, t)
      case Child(c) => Absorb(acc, c.name, ElementMap(c))
  }

  /** src/replyparser.cpp:60-103: attributes first, then one pass over the
      content, recursing into each child element. */
  method ElementToVMap(e: Element) returns (element: map<string, Variant>)
    decreases e
    ensures element == ElementMap(e)
  {
    element := map[];
    var i := 0;
    while i < |e.attributes|
      invariant 0 <= i <= |e.attributes|
      invariant element == AttributesMap(e.attributes[..i])
    {
      assert e.attributes[..i + 1][..i] == e.attributes[..i];
      element := element[e.attributes[i].name := VString(e.attributes[i].value)];
      i := i + 1;
    }
    assert e.attributes[..i] == e.attributes;
    var k := 0;
    while k < |e.content|
      invariant 0 <= k <= |e.content|
      invariant element == ContentMap(e, k)
    {
      match e.content[k] {
        case Text(t) =>
          if t != "" {
            element := element[TextKey := VString(t)];
          }
        case Child(c) =>
          var sub := ElementToVMap(c);
          if c.name in element {
            var existing := element[c.name];
            var list: seq<Variant> := [];
            if existing.VMap? {
              list := [VMap(existing.fields)];
            } else if existing.VList? {
              list := existing.items;
            }
            list := list + [VMap(sub)];
            element := element[c.name := VList(list)];
          } else {
            element := element[c.name := VMap(sub)];
          }
      }
      k := k + 1;
    }
  }

  /** The map `xmlToVMap` returns for the top-level elements it reads. */
  function DocumentMap(roots: seq<Element>): map<string, Variant>
  {
    if roots == [] then map[]
    else DocumentMap(roots[..|roots| - 1])[roots[|roots| - 1].name := VMap(ElementMap(roots[|roots| - 1]))]
  }

  /** src/replyparser.cpp:105-114. */
  method XmlToVMap(roots: seq<Element>) returns (retn: map<string, Variant>)
    ensures retn == DocumentMap(roots)
  {
    retn := map[];
    var i := 0;
    while i < |roots|
      invariant 0 <= i <= |roots|
      invariant retn == DocumentMap(roots[..i])
    {
      assert roots[..i + 1][..i] == roots[..i];
      var element := ElementToVMap(roots[i]);
      retn := retn[roots[i].name := VMap(element)];
      i := i + 1;
    }
    assert roots[..i] == roots;
  }

  /** A well-formed reply has one root element, stored under its name. */
  lemma SingleRoot(root: Element)
    ensures DocumentMap([root]) == map[root.name := VMap(ElementMap(root))]
  {
    assert [root][..0] == [];
  }

  // ---------------------------------------------------------------------
  // What the builder stores, stated against the tree.

  /** The child elements among `nodes` that are named `n`, in document order. */
  function ChildrenNamed(nodes: seq<Node>, n: string): seq<Element>
  {
    if nodes == [] then []
    else
      var last := nodes[|nodes| - 1];
      ChildrenNamed(nodes[..|nodes| - 1], n) + (if last.Child? && last.element.name == n then [last.element] else [])
  }

  /** The converted children, each as a map. */
  function Maps(cs: seq<Element>): (r: seq<Variant>)
    ensures |r| == |cs| && forall i :: 0 <= i < |cs| ==> r[i] == VMap(ElementMap(cs[i]))
  {
    seq(|cs|, i requires 0 <= i < |cs| => VMap(ElementMap(cs[i])))
  }

  /** The last non-empty character chunk among `nodes`. */
  function LastText(nodes: seq<Node>): Option<string>
  {
    if nodes == [] then None
    else
      var last := nodes[|nodes| - 1];
      if last.Text? && last.text != "" then Some(last.text) else LastText(nodes[..|nodes| - 1])
  }

  /** An attribute name becomes a key holding the value of its last
      occurrence. */
  lemma {:induction false} AttributeEntry(attrs: seq<Attribute>, n: string)
    ensures var a := AttributesMap(attrs);
      && (n in a <==> exists i :: 0 <= i < |attrs| && attrs[i].name == n)
      && (n in a ==> exists j :: 0 <= j < |attrs| && attrs[j].name == n && a[n] == VString(attrs[j].value)
                                 && forall i :: j < i < |attrs| ==> attrs[i].name != n)
  {
    if attrs != [] {
      var init := attrs[..|attrs| - 1];
      AttributeEntry(init, n);
      assert forall i :: 0 <= i < |init| ==> init[i] == attrs[i];
    }
  }

  lemma {:induction false} AttributesAreStrings(attrs: seq<Attribute>, n: string)
    requires n in AttributesMap(attrs)
    ensures AttributesMap(attrs)[n].VString?
  {
    if attrs[|attrs| - 1].name != n {
      AttributesAreStrings(attrs[..|attrs| - 1], n);
    }
  }

  lemma ChildrenNamedPrefix(e: Element, k: nat, n: string)
    requires 0 < k <= |e.content|
    ensures ChildrenNamed(e.content[..k], n) ==
      ChildrenNamed(e.content[..k - 1], n)
        + (if e.content[k - 1].Child? && e.content[k - 1].element.name == n then [e.content[k - 1].element] else [])
  {
    assert e.content[..k][..k - 1] == e.content[..k - 1];
  }

  lemma LastTextPrefix(e: Element, k: nat)
    requires 0 < k <= |e.content|
    ensures LastText(e.content[..k]) ==
      if e.content[k - 1].Text? && e.content[k - 1].text != "" then Some(e.content[k - 1].text)
      else LastText(e.content[..k - 1])
  {
    assert e.content[..k][..k - 1] == e.content[..k - 1];
  }

  /** The entry a name `n` has once the children `cs` of that name have
      been absorbed over the attribute map `a`. */
  function ExpectedEntry(a: map<string, Variant>, cs: seq<Element>, n: string): Variant
    requires cs != []
  {
    if |cs| == 1 && n !in a then VMap(ElementMap(cs[0])) else VList(Maps(cs))
  }

  /** One more child named `n` moves the entry from its value for `before`
      to its value for `before + [c]`. */
  lemma AbsorbMatching(acc: map<string, Variant>, a: map<string, Variant>, before: seq<Element>, c: Element, n: string)
    requires before == [] ==> (n in acc <==> n in a) && (n in a ==> acc[n] == a[n] && a[n].VString?)
    requires before != [] ==> n in acc && acc[n] == ExpectedEntry(a, before, n)
    ensures var m := Absorb(acc, n, ElementMap(c));
      n in m && m[n] == ExpectedEntry(a, before + [c], n)
  {
    var cs := before + [c];
    if before == [] {
      if n in a {
        assert Maps(cs) == [VMap(ElementMap(c))];
      }
    } else if |before| == 1 && n !in a {
      assert Maps(cs) == [VMap(ElementMap(before[0])), VMap(ElementMap(c))];
    } else {
      assert Maps(cs) == Maps(before) + [VMap(ElementMap(c))];
    }
  }

  /** Children named `n` (after the first `k` nodes): none leaves the
      attribute entry as it was; one child, with no attribute of that name, is
      stored as its map; otherwise the entry is the list of all of them in
      document order, and an attribute of the same name is lost. */
  lemma {:induction false} ContentMapChildEntry(e: Element, k: nat, n: string)
    requires k <= |e.content| && n != TextKey
    ensures var cs := ChildrenNamed(e.content[..k], n);
      var m := ContentMap(e, k);
      var a := AttributesMap(e.attributes);
      && (cs == [] ==> (n in m <==> n in a) && (n in a ==> m[n] == a[n]))
      && (cs != [] ==> n in m && m[n] == ExpectedEntry(a, cs, n))
  {
    var a := AttributesMap(e.attributes);
    if k == 0 {
      assert e.content[..0] == [];
    } else {
      ContentMapChildEntry(e, k - 1, n);
      ChildrenNamedPrefix(e, k, n);
      var before := ChildrenNamed(e.content[..k - 1], n);
      var acc := ContentMap(e, k - 1);
      match e.content[k - 1]
      case Text(t) =>
      case Child(c) =>
        if c.name == n {
          if before == [] && n in a {
            AttributesAreStrings(e.attributes, n);
          }
          AbsorbMatching(acc, a, before, c, n);
        }
    }
  }

  /** The same, for the whole element. */
  lemma ChildEntry(e: Element, n: string)
    requires n != TextKey
    ensures var cs := ChildrenNamed(e.content, n);
      var m := ElementMap(e);
      var a := AttributesMap(e.attributes);
      && (cs == [] ==> (n in m <==> n in a) && (n in a ==> m[n] == a[n]))
      && (cs != [] ==> n in m && m[n] == ExpectedEntry(a, cs, n))
  {
    ContentMapChildEntry(e, |e.content|, n);
    assert e.content[..|e.content|] == e.content;
  }

  /** No attribute and no child carries the text key's name: true of every
      parsed XML document. */
  predicate NamesAreXmlNames(e: Element)
  {
    && (forall i :: 0 <= i < |e.attributes| ==> e.attributes[i].name != TextKey)
    && (forall i :: 0 <= i < |e.content| ==> e.content[i].Child? ==> e.content[i].element.name != TextKey)
  }

  /** The text key is present exactly when the element has a non-empty
      character chunk, and it holds the last one. */
  lemma {:induction false} ContentMapText(e: Element, k: nat)
    requires k <= |e.content| && NamesAreXmlNames(e)
    ensures var m := ContentMap(e, k);
      && (TextKey in m <==> LastText(e.content[..k]).Some?)
      && (TextKey in m ==> m[TextKey] == VString(LastText(e.content[..k]).value))
  {
    if k == 0 {
      assert e.content[..0] == [];
      AttributeEntry(e.attributes, TextKey);
    } else {
      ContentMapText(e, k - 1);
      LastTextPrefix(e, k);
    }
  }

  lemma TextEntry(e: Element)
    requires NamesAreXmlNames(e)
    ensures var m := ElementMap(e);
      && (TextKey in m <==> LastText(e.content).Some?)
      && (TextKey in m ==> m[TextKey] == VString(LastText(e.content).value))
  {
    ContentMapText(e, |e.content|);
    assert e.content[..|e.content|] == e.content;
  }

  /** The keys of an element's map are its attribute names, its child names
      and, if it has non-empty text, the text key. */
  lemma {:induction false} ContentMapKeys(e: Element, k: nat, key: string)
    requires k <= |e.content|
    ensures key in ContentMap(e, k) <==>
      key in AttributesMap(e.attributes) || ChildrenNamed(e.content[..k], key) != []
      || (key == TextKey && LastText(e.content[..k]).Some?)
  {
    if k == 0 {
      assert e.content[..0] == [];
    } else {
      ContentMapKeys(e, k - 1, key);
      ChildrenNamedPrefix(e, k, key);
      LastTextPrefix(e, k);
    }
  }

  // ---------------------------------------------------------------------
  // Reading values out of the maps, with QVariant's conversions.

  /** QVariantMap::value(key): an invalid variant for a missing key. */
  function Value(m: map<string, Variant>, key: string): Variant
  {
    if key in m then m[key] else Invalid
  }

  /** QVariant::toMap(): empty unless the variant holds a map. */
  function ToMap(v: Variant): map<string, Variant>
  {
    if v.VMap? then v.fields else map[]
  }

  /** QVariant::toString(): empty unless the variant holds a string. */
  function ToStr(v: Variant): string
  {
    if v.VString? then v.str else ""
  }

  /** `m.value(key).toMap()`. */
  function Sub(m: map<string, Variant>, key: string): map<string, Variant>
  {
    ToMap(Value(m, key))
  }

  /** `m.value(k1).toMap().value(k2).toMap()…` along a path of keys. */
  function Path(m: map<string, Variant>, keys: seq<string>): map<string, Variant>
    decreases |keys|
  {
    if keys == [] then m else Path(Sub(m, keys[0]), keys[1..])
  }

  /** The text of the element reached along `keys`:
      `….toMap().value("@text").toString()`. */
  function TextAt(m: map<string, Variant>, keys: seq<string>): string
  {
    ToStr(Value(Path(m, keys), TextKey))
  }

  /** The `response` entries of a multistatus map: the list when there are
      several, otherwise the single (possibly empty) map. */
  function Responses(multistatus: map<string, Variant>): seq<Variant>
  {
    var v := Value(multistatus, "response");
    if v.VList? then v.items else [VMap(ToMap(v))]
  }

  /** The multistatus map of a reply document. */
  function Multistatus(roots: seq<Element>): map<string, Variant>
  {
    Sub(DocumentMap(roots), "multistatus")
  }

  // ---------------------------------------------------------------------
  // The reader's token stream.

  /** QXmlStreamReader's token types as the parser distinguishes them.
      `OtherToken` stands for comments, processing instructions and the
      document start. */
  datatype Token = StartTag(name: string) | EndTag | Chars(text: string) | OtherToken

  function Tokens(e: Element): seq<Token>
    decreases e, |e.content| + 1
  {
    [StartTag(e.name)] + ContentTokens(e, |e.content|) + [EndTag]
  }

  function ContentTokens(e: Element, k: nat): seq<Token>
    requires k <= |e.content|
    decreases e, k
  {
    if k == 0 then []
    else
      ContentTokens(e, k - 1) +
        match e.content[k - 1]
        case Text(t) => [Chars(t)]
        case Child(c) => Tokens(c)
  }

  function DocumentTokens(roots: seq<Element>): seq<Token>
  {
    if roots == [] then [] else DocumentTokens(roots[..|roots| - 1]) + Tokens(roots[|roots| - 1])
  }

  /** Some element of the tree is named `n`. */
  predicate Mentions(e: Element, n: string)
    decreases e, |e.content| + 1
  {
    e.name == n || ContentMentions(e, |e.content|, n)
  }

  predicate ContentMentions(e: Element, k: nat, n: string)
    requires k <= |e.content|
    decreases e, k
  {
    k > 0 && (ContentMentions(e, k - 1, n) || (e.content[k - 1].Child? && Mentions(e.content[k - 1].element, n)))
  }

  predicate DocumentMentions(roots: seq<Element>, n: string)
  {
    exists i :: 0 <= i < |roots| && Mentions(roots[i], n)
  }

  /** A start tag in the stream is the start of some element of the tree. */
  lemma {:induction false} TokensMention(e: Element, n: string)
    decreases e, |e.content| + 1
    ensures StartTag(n) in Tokens(e) ==> Mentions(e, n)
  {
    ContentTokensMention(e, |e.content|, n);
  }

  lemma {:induction false} ContentTokensMention(e: Element, k: nat, n: string)
    requires k <= |e.content|
    decreases e, k
    ensures StartTag(n) in ContentTokens(e, k) ==> ContentMentions(e, k, n)
  {
    if k > 0 {
      ContentTokensMention(e, k - 1, n);
      match e.content[k - 1]
      case Text(t) =>
      case Child(c) => TokensMention(c, n);
    }
  }

  lemma {:induction false} DocumentTokensMention(roots: seq<Element>, n: string)
    ensures StartTag(n) in DocumentTokens(roots) ==> DocumentMentions(roots, n)
  {
    if roots != [] {
      var init := roots[..|roots| - 1];
      DocumentTokensMention(init, n);
      TokensMention(roots[|roots| - 1], n);
      if DocumentMentions(init, n) {
        var i :| 0 <= i < |init| && Mentions(init[i], n);
        assert roots[i] == init[i];
      }
    }
  }
}
