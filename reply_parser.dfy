/** The reply interpreter (src/replyparser.cpp): it turns the multistatus
    documents the server sends into the typed results the sync engine
    works with, reading (and, through `q`, writing) the syncer's identity
    tables. Each parse is a loop over the document's `response` entries,
    stated against a specification function over the same entries. */
module Replies {
  import opened Optional
  import opened Strings
  import opened OrderedKeys
  import opened ParserTypes
  import opened VTree
  import opened VCardConverter
  import opened SyncState

  // ---------------------------------------------------------------------
  // parseUserPrincipal (src/replyparser.cpp:126-178)

  /** The status text, principal href and ctag of the single `response`
      of a multistatus map, each "" when missing. */
  function PrincipalStatus(ms: map<string, Variant>): string
  {
    TextAt(Sub(ms, "response"), ["propstat", "status"])
  }

  function PrincipalHref(ms: map<string, Variant>): string
  {
    TextAt(Sub(ms, "response"), ["propstat", "prop", "current-user-principal", "href"])
  }

  function PrincipalCtag(ms: map<string, Variant>): string
  {
    TextAt(Sub(ms, "response"), ["propstat", "prop", "getctag"])
  }

  /** Decides whether the server answered the current-user-principal
      request with the principal or with addressbook information, and
      returns the principal path in the first case. A non-OK status is only
      logged: the answer is then still a principal response. */
  function ParseUserPrincipal(roots: seq<Element>): (r: (ResponseType, string))
    ensures r.0 == AddressbookInformationResponse ==> r.1 == ""
    ensures r.0 == UserPrincipalResponse ==> r.1 == PrincipalHref(Multistatus(roots))
    ensures var ms := Multistatus(roots);
      r.0 == AddressbookInformationResponse <==>
        Value(ms, "response").VList?
        || (Contains(PrincipalStatus(ms), "200 OK") && PrincipalHref(ms) == "" && PrincipalCtag(ms) != "")
  {
    var ms := Multistatus(roots);
    if Value(ms, "response").VList? then (AddressbookInformationResponse, "")
    else if !Contains(PrincipalStatus(ms), "200 OK") then (UserPrincipalResponse, PrincipalHref(ms))
    else if PrincipalHref(ms) == "" && PrincipalCtag(ms) != "" then (AddressbookInformationResponse, "")
    else (UserPrincipalResponse, PrincipalHref(ms))
  }

  /** A multistatus document with two or more `response` children is read
      as addressbook information, whatever the responses hold. */
  lemma SeveralResponsesAreAddressbookInformation(root: Element)
    requires root.name == "multistatus" && |ChildrenNamed(root.content, "response")| >= 2
    ensures ParseUserPrincipal([root]) == (AddressbookInformationResponse, "")
  {
    SingleRoot(root);
    ChildEntry(root, "response");
  }

  /** With one `response` child, the answer is read from that response's
      `propstat`: an OK status with a ctag and no principal href means
      addressbook information, anything else is a principal response
      carrying the href (possibly empty). */
  lemma OneResponseIsReadFromItsPropstat(root: Element)
    requires root.name == "multistatus" && "response" !in AttributesMap(root.attributes)
    requires |ChildrenNamed(root.content, "response")| == 1
    ensures var response := ElementMap(ChildrenNamed(root.content, "response")[0]);
      var status := TextAt(response, ["propstat", "status"]);
      var href := TextAt(response, ["propstat", "prop", "current-user-principal", "href"]);
      var ctag := TextAt(response, ["propstat", "prop", "getctag"]);
      ParseUserPrincipal([root]) ==
        if Contains(status, "200 OK") && href == "" && ctag != "" then (AddressbookInformationResponse, "")
        else (UserPrincipalResponse, href)
  {
    SingleRoot(root);
    ChildEntry(root, "response");
  }

  // ---------------------------------------------------------------------
  // parseAddressbookHome (src/replyparser.cpp:180-223), on the reader's
  // token stream.

  const HomeSetName := "addressbook-home-set"

  /** QXmlStreamReader::readNextStartElement from position `i`: whether a
      start tag was reached before an end tag or the end of the document,
      and the position after the last token read. */
  function NextStart(toks: seq<Token>, i: nat): (r: (bool, nat))
    requires i <= |toks|
    decreases |toks| - i
    ensures i <= r.1 <= |toks|
    ensures r.0 ==> i < r.1 && toks[r.1 - 1].StartTag?
  {
    if i == |toks| then (false, i)
    else match toks[i]
      case StartTag(_) => (true, i + 1)
      case EndTag => (false, i + 1)
      case _ => NextStart(toks, i + 1)
  }

  /** QXmlStreamReader::readElementText after a start tag at `i - 1`: the
      character data up to the matching end tag, the position after it, and
      whether the reader raised an error (a nested start tag, or the end of
      the input), in which case the text read so far is returned. */
  function ElementText(toks: seq<Token>, i: nat, acc: string): (r: (string, nat, bool))
    requires i <= |toks|
    decreases |toks| - i
    ensures i <= r.1 <= |toks|
    ensures !r.2 ==> i < r.1
  {
    if i == |toks| then (acc, i, true)
    else match toks[i]
      case Chars(t) => ElementText(toks, i + 1, acc + t)
      case OtherToken => ElementText(toks, i + 1, acc)
      case EndTag => (acc, i + 1, false)
      case StartTag(_) => (acc, i + 1, true)
  }

  /** The scan loop from position `i` with the current home and status:
      the home and status it ends with. */
  function HomeScan(toks: seq<Token>, i: nat, home: string, status: string): (string, string)
    requires i <= |toks|
    decreases |toks| - i
  {
    if i == |toks| then (home, status)
    else match toks[i]
      case StartTag(n) =>
        if n == HomeSetName then
          var (found, j) := NextStart(toks, i + 1);
          if found && toks[j - 1].name == "href" then
            var (t, k, err) := ElementText(toks, j, "");
            if err then (t, status) else HomeScan(toks, k, t, status)
          else HomeScan(toks, j, home, status)
        else if n == "status" then
          var (t, k, err) := ElementText(toks, i + 1, "");
          if err then (home, t) else HomeScan(toks, k, home, t)
        else HomeScan(toks, i + 1, home, status)
      case _ => HomeScan(toks, i + 1, home, status)
  }

  /** The addressbook home path a reply document yields. */
  function AddressbookHome(roots: seq<Element>): string
  {
    HomeScan(DocumentTokens(roots), 0, "", "").0
  }

  /** The status text never decides the home path: it is only logged. */
  lemma {:induction false} HomeIgnoresStatus(toks: seq<Token>, i: nat, home: string, s1: string, s2: string)
    requires i <= |toks|
    decreases |toks| - i
    ensures HomeScan(toks, i, home, s1).0 == HomeScan(toks, i, home, s2).0
  {
    if i < |toks| {
      match toks[i]
      case StartTag(n) =>
        if n == HomeSetName {
          var (found, j) := NextStart(toks, i + 1);
          if found && toks[j - 1].name == "href" {
            var (t, k, err) := ElementText(toks, j, "");
            if !err { HomeIgnoresStatus(toks, k, t, s1, s2); }
          } else {
            HomeIgnoresStatus(toks, j, home, s1, s2);
          }
        } else if n == "status" {
          var (t, k, err) := ElementText(toks, i + 1, "");
          if !err { HomeIgnoresStatus(toks, k, home, t, t); }
        } else {
          HomeIgnoresStatus(toks, i + 1, home, s1, s2);
        }
      case EndTag => HomeIgnoresStatus(toks, i + 1, home, s1, s2);
      case Chars(_) => HomeIgnoresStatus(toks, i + 1, home, s1, s2);
      case OtherToken => HomeIgnoresStatus(toks, i + 1, home, s1, s2);
    }
  }

  /** Without an `addressbook-home-set` start tag ahead, the home path is
      never assigned. */
  lemma {:induction false} HomeUnsetWithoutHomeSet(toks: seq<Token>, i: nat, home: string, status: string)
    requires i <= |toks| && StartTag(HomeSetName) !in toks[i..]
    decreases |toks| - i
    ensures HomeScan(toks, i, home, status).0 == home
  {
    if i < |toks| {
      assert toks[i] == toks[i..][0];
      assert forall k :: i < k <= |toks| ==> toks[k..] == toks[i..][k - i..];
      match toks[i]
      case StartTag(n) =>
        if n == "status" {
          var (t, k, err) := ElementText(toks, i + 1, "");
          if !err { HomeUnsetWithoutHomeSet(toks, k, home, t); }
        } else {
          HomeUnsetWithoutHomeSet(toks, i + 1, home, status);
        }
      case EndTag => HomeUnsetWithoutHomeSet(toks, i + 1, home, status);
      case Chars(_) => HomeUnsetWithoutHomeSet(toks, i + 1, home, status);
      case OtherToken => HomeUnsetWithoutHomeSet(toks, i + 1, home, status);
    }
  }

  /** A home-set start tag whose next start element (past any whitespace
      or other character data) is an `href` with text `t`, closed without
      error and followed by no further home-set, makes `t` the home path:
      the last home set in the document wins. */
  lemma LastHomeSetWins(toks: seq<Token>, i: nat, j: nat, k: nat, t: string, home: string, status: string)
    requires i < |toks| && toks[i] == StartTag(HomeSetName)
    requires NextStart(toks, i + 1) == (true, j)
    requires toks[j - 1] == StartTag("href")
    requires ElementText(toks, j, "") == (t, k, false)
    requires StartTag(HomeSetName) !in toks[k..]
    ensures HomeScan(toks, i, home, status).0 == t
  {
    HomeUnsetWithoutHomeSet(toks, k, t, status);
  }

  /** A home-set whose href is separated from it by character data (the
      indentation of a pretty-printed reply), after tokens that open no
      home-set or status and before tokens that open no further home-set:
      the href's text is the home path. */
  lemma SpacedHomeSetWins(pre: seq<Token>, ws: string, t: string, post: seq<Token>)
    requires forall p :: 0 <= p < |pre| ==> pre[p] != StartTag(HomeSetName) && pre[p] != StartTag("status")
    requires StartTag(HomeSetName) !in post
    ensures HomeScan(pre + [StartTag(HomeSetName), Chars(ws), StartTag("href"), Chars(t), EndTag] + post, 0, "", "").0 == t
  {
    var toks := pre + [StartTag(HomeSetName), Chars(ws), StartTag("href"), Chars(t), EndTag] + post;
    var n := |pre|;
    SpacedHomeSetReads(pre, ws, t, post);
    LastHomeSetWins(toks, n, n + 3, n + 5, t, "", "");
    SpacedHomeSetPrefix(pre, ws, t, post);
    HomeScanSkips(toks, 0, n, "", "");
  }

  /** The reads `parseAddressbookHome` makes at that home-set. */
  lemma SpacedHomeSetReads(pre: seq<Token>, ws: string, t: string, post: seq<Token>)
    ensures var toks, n := pre + [StartTag(HomeSetName), Chars(ws), StartTag("href"), Chars(t), EndTag] + post, |pre|;
      && |toks| == n + 5 + |post| && toks[n] == StartTag(HomeSetName) && toks[n + 2] == StartTag("href")
      && NextStart(toks, n + 1) == (true, n + 3)
      && ElementText(toks, n + 3, "") == (t, n + 5, false)
      && toks[n + 5..] == post
  {
    var toks := pre + [StartTag(HomeSetName), Chars(ws), StartTag("href"), Chars(t), EndTag] + post;
    var n := |pre|;
    assert toks[n + 1] == Chars(ws) && toks[n + 2] == StartTag("href");
    assert toks[n + 3] == Chars(t) && toks[n + 4] == EndTag;
    assert "" + t == t;
  }

  lemma SpacedHomeSetPrefix(pre: seq<Token>, ws: string, t: string, post: seq<Token>)
    ensures var toks := pre + [StartTag(HomeSetName), Chars(ws), StartTag("href"), Chars(t), EndTag] + post;
      |pre| <= |toks| && forall p :: 0 <= p < |pre| ==> toks[p] == pre[p]
  {
  }

  /** The tokens of src/replyparser.cpp:186-197 up to the home-set, with
      the whitespace `ws` between the elements. */
  function IndentedHomeReplyHead(ws: string): seq<Token>
  {
    [StartTag("multistatus"), Chars(ws), StartTag("response"), Chars(ws),
     StartTag("href"), Chars("/"), EndTag, Chars(ws),
     StartTag("propstat"), Chars(ws), StartTag("prop"), Chars(ws)]
  }

  /** The tokens of that reply after the home-set's href. */
  function IndentedHomeReplyTail(ws: string): seq<Token>
  {
    [Chars(ws), EndTag, Chars(ws), EndTag, Chars(ws),
     StartTag("status"), Chars("HTTP/1.1 200 OK"), EndTag, Chars(ws),
     EndTag, Chars(ws), EndTag, Chars(ws), EndTag]
  }

  /** The whole reply of src/replyparser.cpp:186-197, home-set href `t`. */
  function IndentedHomeReply(ws: string, t: string): seq<Token>
  {
    IndentedHomeReplyHead(ws) + [StartTag(HomeSetName), Chars(ws), StartTag("href"), Chars(t), EndTag]
      + IndentedHomeReplyTail(ws)
  }

  /** In that reply the response's own href is passed over and the
      home-set's href, past the whitespace, is the home path. */
  lemma IndentedHomeSet(ws: string, t: string)
    ensures HomeScan(IndentedHomeReply(ws, t), 0, "", "").0 == t
  {
    var head, tail := IndentedHomeReplyHead(ws), IndentedHomeReplyTail(ws);
    assert forall p :: 0 <= p < |head| ==> head[p] != StartTag(HomeSetName) && head[p] != StartTag("status");
    assert StartTag(HomeSetName) !in tail;
    SpacedHomeSetWins(head, ws, t, tail);
  }

  /** Tokens other than a home-set or status start tag are passed over. */
  lemma HomeScanSkips(toks: seq<Token>, i: nat, m: nat, home: string, status: string)
    requires i <= m <= |toks|
    requires forall p :: i <= p < m ==> toks[p] != StartTag(HomeSetName) && toks[p] != StartTag("status")
    ensures HomeScan(toks, i, home, status) == HomeScan(toks, m, home, status)
  {
    var j := m;
    while j > i
      invariant i <= j <= m
      invariant HomeScan(toks, j, home, status) == HomeScan(toks, m, home, status)
    {
      j := j - 1;
      assert HomeScan(toks, j, home, status) == HomeScan(toks, j + 1, home, status);
    }
  }

  /** A document in which no element is named `addressbook-home-set` yields
      the empty home path, which the engine treats as an error. */
  lemma NoHomeSetNoHome(roots: seq<Element>)
    requires !DocumentMentions(roots, HomeSetName)
    ensures AddressbookHome(roots) == ""
  {
    DocumentTokensMention(roots, HomeSetName);
    assert DocumentTokens(roots)[0..] == DocumentTokens(roots);
    HomeUnsetWithoutHomeSet(DocumentTokens(roots), 0, "", "");
  }

  // ---------------------------------------------------------------------
  // parseAddressbookInformation (src/replyparser.cpp:225-376)

  /** What the propstats say about the resource: nothing, explicitly yes
      (2xx, or an addressbook resource type), or explicitly no. */
  datatype ResourceStatus = StatusUnknown | StatusOk | StatusNotOk

  /** The state of the scan over one response's propstat elements. */
  datatype PropstatScan = PropstatScan(
    info: AddressBookInformation,
    addressbookResourceSpecified: ResourceStatus,
    resourcetypeStatus: ResourceStatus,
    otherPropertyStatus: ResourceStatus)

  /** The regular expression "2[0-9][0-9]" occurs in the status text. */
  predicate Is2xx(s: string)
  {
    exists i | 0 <= i <= |s| - 3 :: s[i] == '2' && IsDigit(s[i + 1]) && IsDigit(s[i + 2])
  }

  /** A resourcetype names an addressbook when one of its keys is
      "addressbook", or its only key is "collection" (both ignoring case). */
  predicate IsAddressbookResource(keys: set<string>)
  {
    (|keys| == 1 && exists k :: k in keys && EqualsIgnoreCase(k, "collection"))
    || exists k :: k in keys && EqualsIgnoreCase(k, "addressbook")
  }

  /** The `propstat` entries of a response: the list when there are
      several, otherwise the single (possibly empty) map. */
  function Propstats(rmap: map<string, Variant>): seq<Variant>
  {
    var v := Value(rmap, "propstat");
    if v.VList? then v.items else [VMap(ToMap(v))]
  }

  function PropOf(pv: Variant): map<string, Variant>
  {
    Sub(ToMap(pv), "prop")
  }

  predicate HasResourcetype(pv: Variant)
  {
    "resourcetype" in PropOf(pv)
  }

  predicate HasStatus(pv: Variant)
  {
    "status" in ToMap(pv)
  }

  function StatusOf(pv: Variant): string
  {
    TextAt(ToMap(pv), ["status"])
  }

  /** One propstat examined: its ctag, sync-token and display name replace
      the ones seen so far, its resourcetype decides whether the resource is
      an addressbook, and its status is filed as the resourcetype's or as
      the other properties'. */
  function PropstatStep(st: PropstatScan, pv: Variant): PropstatScan
  {
    var prop := PropOf(pv);
    var info := st.info;
    var info := if "getctag" in prop then info.(ctag := TextAt(prop, ["getctag"])) else info;
    var info := if "sync-token" in prop then info.(syncToken := TextAt(prop, ["sync-token"])) else info;
    var info := if "displayname" in prop then info.(displayName := TextAt(prop, ["displayname"])) else info;
    var isRt := HasResourcetype(pv);
    var specified :=
      if !isRt then st.addressbookResourceSpecified
      else if IsAddressbookResource(Sub(prop, "resourcetype").Keys) then StatusOk
      else StatusNotOk;
    var verdict := if Is2xx(StatusOf(pv)) then StatusOk else StatusNotOk;
    var rt := if HasStatus(pv) && isRt then verdict else st.resourcetypeStatus;
    var other := if HasStatus(pv) && !isRt then verdict else st.otherPropertyStatus;
    PropstatScan(info, specified, rt, other)
  }

  function PropstatFold(init: PropstatScan, ps: seq<Variant>): PropstatScan
  {
    if ps == [] then init else PropstatStep(PropstatFold(init, ps[..|ps| - 1]), ps[|ps| - 1])
  }

  function InitialScan(rmap: map<string, Variant>): PropstatScan
  {
    PropstatScan(AddressBookInformation(TextAt(rmap, ["href"]), "", "", ""),
                 StatusUnknown, StatusUnknown, StatusUnknown)
  }

  /** The decision of src/replyparser.cpp:350-364. */
  predicate Accepted(st: PropstatScan, count: nat)
  {
    st.resourcetypeStatus == StatusOk
    || (count == 1 && st.addressbookResourceSpecified == StatusUnknown && st.otherPropertyStatus == StatusOk)
  }

  /** The addressbook one response describes, if it is accepted. */
  function AddressbookRow(rv: Variant): Option<AddressBookInformation>
  {
    var rmap := ToMap(rv);
    var ps := Propstats(rmap);
    var st := PropstatFold(InitialScan(rmap), ps);
    if Accepted(st, |ps|) then Some(st.info) else None
  }

  /** The rows of each response, in document order. */
  function AddressbookRowList(rs: seq<Variant>): (r: seq<Option<AddressBookInformation>>)
    ensures |r| == |rs| && forall i :: 0 <= i < |rs| ==> r[i] == AddressbookRow(rs[i])
  {
    seq(|rs|, i requires 0 <= i < |rs| => AddressbookRow(rs[i]))
  }

  function AddressbookRows(rs: seq<Variant>): seq<AddressBookInformation>
  {
    Somes(AddressbookRowList(rs))
  }

  /** The index of the last propstat that carries both a resourcetype and a
      status, or -1. */
  function LastResourcetypeStatus(ps: seq<Variant>): (j: int)
    ensures -1 <= j < |ps|
  {
    if ps == [] then -1
    else if HasResourcetype(ps[|ps| - 1]) && HasStatus(ps[|ps| - 1]) then |ps| - 1
    else LastResourcetypeStatus(ps[..|ps| - 1])
  }

  /** The resourcetype status is that of the last propstat holding a
      resourcetype and a status; the resource is left unspecified exactly
      when no propstat holds a resourcetype. */
  lemma {:induction false} FoldStatuses(init: PropstatScan, ps: seq<Variant>)
    requires init.addressbookResourceSpecified == StatusUnknown && init.resourcetypeStatus == StatusUnknown
    ensures var st := PropstatFold(init, ps);
      var j := LastResourcetypeStatus(ps);
      && (st.resourcetypeStatus ==
            if j < 0 then StatusUnknown else if Is2xx(StatusOf(ps[j])) then StatusOk else StatusNotOk)
      && (st.addressbookResourceSpecified == StatusUnknown <==>
            forall i :: 0 <= i < |ps| ==> !HasResourcetype(ps[i]))
  {
    if ps != [] {
      var init' := ps[..|ps| - 1];
      FoldStatuses(init, init');
      assert forall i :: 0 <= i < |init'| ==> init'[i] == ps[i];
    }
  }

  /** Acceptance: the response is an addressbook when the last status given
      for its resourcetype is 2xx, or when it has exactly one propstat, with
      no resourcetype and a 2xx status. Whether a ctag or sync-token was
      reported plays no part. */
  lemma AcceptanceRule(rv: Variant)
    ensures var rmap := ToMap(rv);
      var ps := Propstats(rmap);
      var j := LastResourcetypeStatus(ps);
      AddressbookRow(rv).Some? <==>
        (j >= 0 && Is2xx(StatusOf(ps[j])))
        || (|ps| == 1 && !HasResourcetype(ps[0]) && HasStatus(ps[0]) && Is2xx(StatusOf(ps[0])))
  {
    var rmap := ToMap(rv);
    var ps := Propstats(rmap);
    FoldStatuses(InitialScan(rmap), ps);
    if |ps| == 1 {
      assert ps[..0] == [];
    }
  }

  /** The value a propstat field takes from the last propstat whose prop
      holds `key`, or "" when none does. */
  function LastPropText(ps: seq<Variant>, key: string): string
  {
    if ps == [] then ""
    else if key in PropOf(ps[|ps| - 1]) then TextAt(PropOf(ps[|ps| - 1]), [key])
    else LastPropText(ps[..|ps| - 1], key)
  }

  function InfoField(info: AddressBookInformation, key: string): string
  {
    if key == "getctag" then info.ctag
    else if key == "sync-token" then info.syncToken
    else if key == "displayname" then info.displayName
    else info.url
  }

  /** ctag, sync-token and display name each come from the last propstat
      that reports them (empty when none does); the url is the response's
      href. */
  lemma {:induction false} FoldFields(rmap: map<string, Variant>, ps: seq<Variant>, key: string)
    requires key == "getctag" || key == "sync-token" || key == "displayname"
    ensures InfoField(PropstatFold(InitialScan(rmap), ps).info, key) == LastPropText(ps, key)
    ensures PropstatFold(InitialScan(rmap), ps).info.url == TextAt(rmap, ["href"])
  {
    if ps != [] {
      FoldFields(rmap, ps[..|ps| - 1], key);
    }
  }

  /** The returned list holds the accepted responses' addressbooks in
      document order. */
  lemma AddressbookRowsMembers(rs: seq<Variant>, info: AddressBookInformation)
    ensures |AddressbookRows(rs)| <= |rs|
    ensures info in AddressbookRows(rs) <==> exists i :: 0 <= i < |rs| && AddressbookRow(rs[i]) == Some(info)
  {
    SomesMembers(AddressbookRowList(rs), info);
  }

  /** The scan and decision with the rejection the resourcetype branch
      states in its comments: a resource whose resourcetype is explicitly
      not an addressbook is not accepted. */
  predicate AcceptedCorrected(st: PropstatScan, count: nat)
  {
    (st.resourcetypeStatus == StatusOk && st.addressbookResourceSpecified != StatusNotOk)
    || (count == 1 && st.addressbookResourceSpecified == StatusUnknown && st.otherPropertyStatus == StatusOk)
  }

  function AddressbookRowCorrected(rv: Variant): Option<AddressBookInformation>
  {
    var rmap := ToMap(rv);
    var ps := Propstats(rmap);
    var st := PropstatFold(InitialScan(rmap), ps);
    if AcceptedCorrected(st, |ps|) then Some(st.info) else None
  }

  /** A single propstat with a resourcetype and a status. */
  function OnePropstatResponse(href: string, resourcetype: map<string, Variant>, status: string): Variant
  {
    VMap(map["href" := VMap(map[TextKey := VString(href)]),
             "propstat" := VMap(map["prop" := VMap(map["resourcetype" := VMap(resourcetype)]),
                                    "status" := VMap(map[TextKey := VString(status)])])])
  }

  /** As written, a collection that is explicitly not an addressbook (here
      a calendar collection) is accepted as soon as its resourcetype status
      is 2xx. */
  lemma CalendarAcceptedAsWritten()
    ensures var rv := OnePropstatResponse("/calendars/me/", map["collection" := VMap(map[]), "calendar" := VMap(map[])], "HTTP/1.1 200 OK");
      AddressbookRow(rv).Some? && AddressbookRowCorrected(rv).None?
  {
    var rt := map["collection" := VMap(map[]), "calendar" := VMap(map[])];
    var rv := OnePropstatResponse("/calendars/me/", rt, "HTTP/1.1 200 OK");
    var ps := Propstats(ToMap(rv));
    assert |ps| == 1 && ps[..0] == [];
    CalendarPropstat(ps[0], rt);
  }

  /** The one propstat of that response: a 2xx status for a resourcetype
      that is not an addressbook. */
  lemma CalendarPropstat(pv: Variant, rt: map<string, Variant>)
    requires rt == map["collection" := VMap(map[]), "calendar" := VMap(map[])]
    requires pv == VMap(map["prop" := VMap(map["resourcetype" := VMap(rt)]),
                            "status" := VMap(map[TextKey := VString("HTTP/1.1 200 OK")])])
    ensures HasResourcetype(pv) && HasStatus(pv) && Is2xx(StatusOf(pv))
    ensures !IsAddressbookResource(Sub(PropOf(pv), "resourcetype").Keys)
  {
    var status := "HTTP/1.1 200 OK";
    assert StatusOf(pv) == status;
    assert Is2xx(status) by {
      assert status[9] == '2' && IsDigit(status[10]) && IsDigit(status[11]);
    }
    assert Sub(PropOf(pv), "resourcetype").Keys == rt.Keys;
    CalendarIsNoAddressbookResource(rt.Keys);
  }

  /** A resourcetype naming a collection and a calendar is not an
      addressbook. */
  lemma CalendarIsNoAddressbookResource(keys: set<string>)
    requires keys == {"collection", "calendar"}
    ensures !IsAddressbookResource(keys)
  {
    assert !EqualsIgnoreCase("collection", "addressbook") by {
      assert ToLower("collection")[0] != ToLower("addressbook")[0];
    }
    assert !EqualsIgnoreCase("calendar", "addressbook") by {
      assert ToLower("calendar")[0] != ToLower("addressbook")[0];
    }
    assert |keys| == 2;
  }

  /** With the correction, an accepted resource is never one whose
      resourcetype was explicitly not an addressbook. */
  lemma CorrectedAcceptsOnlyAddressbooks(rv: Variant)
    ensures var rmap := ToMap(rv);
      var st := PropstatFold(InitialScan(rmap), Propstats(rmap));
      AddressbookRowCorrected(rv).Some? ==> st.addressbookResourceSpecified != StatusNotOk
  {
  }

  // ---------------------------------------------------------------------
  // parseSyncTokenDelta (src/replyparser.cpp:378-458)

  function UriOf(rv: Variant): string
  {
    TextAt(ToMap(rv), ["href"])
  }

  function EtagOf(rv: Variant): string
  {
    TextAt(ToMap(rv), ["propstat", "prop", "getetag"])
  }

  /** The status a row is classified by: the one inside its propstat. */
  function RowStatus(rv: Variant): string
  {
    TextAt(ToMap(rv), ["propstat", "status"])
  }

  /** A 200 row is dropped unless its uri names a vCard resource; it is an
      addition when no local guid maps to its uri and a modification
      otherwise. A 404 row is a deletion; any other row is kept with no
      modification type. */
  function DeltaClass(uri: string, etag: string, guid: string, status: string): Option<ContactInformation>
  {
    if Contains(status, "200 OK") then
      if !EndsWithIgnoreCase(uri, ".vcf") then None
      else Some(ContactInformation(if guid == "" then Addition else Modification, uri, guid, etag))
    else if Contains(status, "404 Not Found") then Some(ContactInformation(Deletion, uri, guid, etag))
    else Some(ContactInformation(Uninitialized, uri, guid, etag))
  }

  ghost function DeltaRow(rv: Variant, uris: map<string, string>): Option<ContactInformation>
  {
    DeltaClass(UriOf(rv), EtagOf(rv), LastKeyWithValue(uris, UriOf(rv)), RowStatus(rv))
  }

  ghost function DeltaRowList(rs: seq<Variant>, uris: map<string, string>): (r: seq<Option<ContactInformation>>)
    ensures |r| == |rs| && forall i :: 0 <= i < |rs| ==> r[i] == DeltaRow(rs[i], uris)
  {
    seq(|rs|, i requires 0 <= i < |rs| => DeltaRow(rs[i], uris))
  }

  /** The rows `parseSyncTokenDelta` returns for the responses `rs`. */
  ghost function DeltaRows(rs: seq<Variant>, uris: map<string, string>): seq<ContactInformation>
  {
    Somes(DeltaRowList(rs, uris))
  }

  lemma NothingBelowEmpty(g: string)
    ensures StrLe(g, "") ==> g == ""
  {
  }

  /** The guid a row receives is the greatest non-empty guid whose stored uri
      is the row's uri, or "" when there is none. */
  lemma GuidForUri(uris: map<string, string>, uri: string)
    ensures var g := LastKeyWithValue(uris, uri);
      && (g != "" <==> exists k :: k in uris && k != "" && uris[k] == uri)
      && (g != "" ==> g in uris && uris[g] == uri && forall k :: k in uris && uris[k] == uri ==> StrLe(k, g))
  {
    LastKeyWithValueIsGreatest(uris, uri);
    var g := LastKeyWithValue(uris, uri);
    if exists k :: k in uris && k != "" && uris[k] == uri {
      var k :| k in uris && k != "" && uris[k] == uri;
      NothingBelowEmpty(k);
    }
  }

  /** The classification of one delta row against the uri table. */
  lemma DeltaRowMeaning(rv: Variant, uris: map<string, string>)
    ensures var uri, status, row := UriOf(rv), RowStatus(rv), DeltaRow(rv, uris);
      && (Contains(status, "200 OK") ==>
            (row.Some? <==> EndsWithIgnoreCase(uri, ".vcf"))
            && (row.Some? ==>
                  && row.value.uri == uri && row.value.etag == EtagOf(rv)
                  && (row.value.modType == Modification <==> exists k :: k in uris && k != "" && uris[k] == uri)
                  && (row.value.modType == Addition <==> row.value.guid == "")
                  && (row.value.modType == Modification ==> row.value.guid in uris && uris[row.value.guid] == uri)))
      && (!Contains(status, "200 OK") && Contains(status, "404 Not Found") ==>
            row == Some(ContactInformation(Deletion, uri, LastKeyWithValue(uris, uri), EtagOf(rv))))
      && (!Contains(status, "200 OK") && !Contains(status, "404 Not Found") ==>
            row.Some? && row.value.modType == Uninitialized)
  {
    GuidForUri(uris, UriOf(rv));
  }

  /** Every 200 row that is kept has a vCard uri; the result never holds
      more rows than there were responses. */
  lemma DeltaRowsMembers(rs: seq<Variant>, uris: map<string, string>, info: ContactInformation)
    ensures |DeltaRows(rs, uris)| <= |rs|
    ensures info in DeltaRows(rs, uris) <==> exists i :: 0 <= i < |rs| && DeltaRow(rs[i], uris) == Some(info)
  {
    SomesMembers(DeltaRowList(rs, uris), info);
  }

  lemma NotContainedInShorter(s: string, p: string)
    requires |s| < |p|
    ensures !Contains(s, p)
  {
  }

  /** A response without a propstat (the form RFC 6578, section 3.5.2, gives
      for a deleted member, with the 404 status directly under the
      response) is never read as a deletion: its status is looked for inside
      the missing propstat, and the row comes out with no modification
      type. */
  lemma DeltaIgnoresResponseStatus(rv: Variant, uris: map<string, string>)
    requires "propstat" !in ToMap(rv)
    ensures DeltaRow(rv, uris).Some? && DeltaRow(rv, uris).value.modType == Uninitialized
  {
    NotContainedInShorter(RowStatus(rv), "200 OK");
    NotContainedInShorter(RowStatus(rv), "404 Not Found");
  }

  /** The status with the response-level status taken into account: a
      response that carries its own status is classified by it. */
  function RowStatusCorrected(rv: Variant): string
  {
    if "status" in ToMap(rv) then TextAt(ToMap(rv), ["status"]) else RowStatus(rv)
  }

  ghost function DeltaRowCorrected(rv: Variant, uris: map<string, string>): Option<ContactInformation>
  {
    DeltaClass(UriOf(rv), EtagOf(rv), LastKeyWithValue(uris, UriOf(rv)), RowStatusCorrected(rv))
  }

  ghost function DeltaRowListCorrected(rs: seq<Variant>, uris: map<string, string>): (r: seq<Option<ContactInformation>>)
    ensures |r| == |rs| && forall i :: 0 <= i < |rs| ==> r[i] == DeltaRowCorrected(rs[i], uris)
  {
    seq(|rs|, i requires 0 <= i < |rs| => DeltaRowCorrected(rs[i], uris))
  }

  ghost function DeltaRowsCorrected(rs: seq<Variant>, uris: map<string, string>): seq<ContactInformation>
  {
    Somes(DeltaRowListCorrected(rs, uris))
  }

  /** With the correction, a response-level 404 is a deletion, and a
      response without a status of its own is classified as before. */
  lemma CorrectedDeltaReadsResponseStatus(rv: Variant, uris: map<string, string>)
    ensures var st := TextAt(ToMap(rv), ["status"]);
      "status" in ToMap(rv) && !Contains(st, "200 OK") && Contains(st, "404 Not Found") ==>
        DeltaRowCorrected(rv, uris).Some? && DeltaRowCorrected(rv, uris).value.modType == Deletion
    ensures "status" !in ToMap(rv) ==> DeltaRowCorrected(rv, uris) == DeltaRow(rv, uris)
  {
  }

  /** The deleted-member response of RFC 6578, section 3.5.2. */
  function DeletedMemberResponse(uri: string): Variant
  {
    VMap(map["href" := VMap(map[TextKey := VString(uri)]),
             "status" := VMap(map[TextKey := VString("HTTP/1.1 404 Not Found")])])
  }

  /** The concrete case: as written the deletion is lost (no modification
      type, so the engine drops it); corrected it is a deletion. */
  lemma DeletedMemberLost(uri: string, uris: map<string, string>)
    ensures DeltaRow(DeletedMemberResponse(uri), uris).Some?
    ensures DeltaRow(DeletedMemberResponse(uri), uris).value.modType == Uninitialized
    ensures DeltaRowCorrected(DeletedMemberResponse(uri), uris).Some?
    ensures DeltaRowCorrected(DeletedMemberResponse(uri), uris).value.modType == Deletion
  {
    var rv := DeletedMemberResponse(uri);
    var st := "HTTP/1.1 404 Not Found";
    assert ToMap(rv)["status"] == VMap(map[TextKey := VString(st)]);
    assert "propstat" !in ToMap(rv);
    DeltaIgnoresResponseStatus(rv, uris);
    assert TextAt(ToMap(rv), ["status"]) == st;
    NotFoundStatus();
    CorrectedDeltaReadsResponseStatus(rv, uris);
  }

  lemma NotFoundStatus()
    ensures Contains("HTTP/1.1 404 Not Found", "404 Not Found")
    ensures !Contains("HTTP/1.1 404 Not Found", "200 OK")
  {
    var st := "HTTP/1.1 404 Not Found";
    assert OccursAt(st, "404 Not Found", 9);
    forall i | 0 <= i <= |st| - 6 ensures !OccursAt(st, "200 OK", i) {
      assert st[i..i + 6][0] == st[i] != '2';
    }
  }

  // ---------------------------------------------------------------------
  // parseContactMetadata (src/replyparser.cpp:460-561)

  /** A response that the server lists as a present vCard resource. */
  predicate Seen(rv: Variant)
  {
    EndsWithIgnoreCase(UriOf(rv), ".vcf") && Contains(RowStatus(rv), "200 OK")
  }

  /** The uris of the vCard resources the report lists with 200 OK. */
  function SeenUris(rs: seq<Variant>): set<string>
  {
    set i | 0 <= i < |rs| && Seen(rs[i]) :: UriOf(rs[i])
  }

  /** One response of the metadata report: a listed vCard with an unknown
      uri is an addition, one with a known uri a modification when its
      etag differs from the stored one, and nothing otherwise. */
  ghost function MetadataRow(rv: Variant, uris: map<string, string>, etags: map<string, string>): Option<ContactInformation>
  {
    var uri, etag := UriOf(rv), EtagOf(rv);
    var guid := LastKeyWithValue(uris, uri);
    if !Seen(rv) then None
    else if guid == "" then Some(ContactInformation(Addition, uri, guid, etag))
    else if Get(etags, guid) != etag then Some(ContactInformation(Modification, uri, guid, etag))
    else None
  }

  ghost function MetadataRowList(rs: seq<Variant>, uris: map<string, string>, etags: map<string, string>)
    : (r: seq<Option<ContactInformation>>)
    ensures |r| == |rs| && forall i :: 0 <= i < |rs| ==> r[i] == MetadataRow(rs[i], uris, etags)
  {
    seq(|rs|, i requires 0 <= i < |rs| => MetadataRow(rs[i], uris, etags))
  }

  /** A guid of the addressbook whose stored uri the report does not list
      was deleted on the server. */
  function DeletionRow(guid: string, uris: map<string, string>, etags: map<string, string>, seen: set<string>)
    : Option<ContactInformation>
  {
    if Get(uris, guid) in seen then None
    else Some(ContactInformation(Deletion, Get(uris, guid), guid, Get(etags, guid)))
  }

  function DeletionRowList(guids: seq<string>, uris: map<string, string>, etags: map<string, string>, seen: set<string>)
    : (r: seq<Option<ContactInformation>>)
    ensures |r| == |guids| && forall i :: 0 <= i < |guids| ==> r[i] == DeletionRow(guids[i], uris, etags, seen)
  {
    seq(|guids|, i requires 0 <= i < |guids| => DeletionRow(guids[i], uris, etags, seen))
  }

  function DeletionRows(guids: seq<string>, uris: map<string, string>, etags: map<string, string>, seen: set<string>)
    : seq<ContactInformation>
  {
    Somes(DeletionRowList(guids, uris, etags, seen))
  }

  /** The rows `parseContactMetadata` returns: additions and modifications
      in report order, then the inferred deletions in membership order. */
  ghost function MetadataRows(rs: seq<Variant>, guids: seq<string>, uris: map<string, string>, etags: map<string, string>)
    : seq<ContactInformation>
  {
    Somes(MetadataRowList(rs, uris, etags)) + DeletionRows(guids, uris, etags, SeenUris(rs))
  }

  /** The guids whose etag the response loop reads with `operator[]`. */
  ghost function EtagReadList(rs: seq<Variant>, uris: map<string, string>): (r: seq<Option<string>>)
    ensures |r| == |rs|
  {
    seq(|rs|, i requires 0 <= i < |rs| =>
      var g := LastKeyWithValue(uris, UriOf(rs[i]));
      if Seen(rs[i]) && g != "" then Some(g) else None)
  }

  /** The membership guids whose uri is not listed: their etag is read. */
  function Unseen(guids: seq<string>, uris: map<string, string>, seen: set<string>): (r: seq<Option<string>>)
    ensures |r| == |guids|
  {
    seq(|guids|, i requires 0 <= i < |guids| => if Get(uris, guids[i]) in seen then None else Some(guids[i]))
  }

  /** Reading each of `keys` through `operator[]`. */
  function TouchAll(m: map<string, string>, keys: seq<string>): (r: map<string, string>)
    ensures forall x :: Get(r, x) == Get(m, x)
  {
    if keys == [] then m else Touch(TouchAll(m, keys[..|keys| - 1]), keys[|keys| - 1])
  }

  /** Reading keys through `operator[]` adds exactly those keys. */
  lemma {:induction false} TouchAllKeys(m: map<string, string>, keys: seq<string>)
    ensures TouchAll(m, keys).Keys == m.Keys + set k | k in keys
  {
    if keys != [] {
      var n := |keys| - 1;
      TouchAllKeys(m, keys[..n]);
      assert keys == keys[..n] + [keys[n]];
    }
  }

  lemma TouchAllSnoc(m: map<string, string>, keys: seq<string>, k: string)
    ensures TouchAll(m, keys + [k]) == Touch(TouchAll(m, keys), k)
  {
    assert (keys + [k])[..|keys|] == keys;
  }

  /** The classification of one metadata row. */
  lemma MetadataRowMeaning(rv: Variant, uris: map<string, string>, etags: map<string, string>)
    ensures var uri, row := UriOf(rv), MetadataRow(rv, uris, etags);
      var known := exists k :: k in uris && k != "" && uris[k] == uri;
      && (!EndsWithIgnoreCase(uri, ".vcf") || !Contains(RowStatus(rv), "200 OK") ==> row.None?)
      && (Seen(rv) && !known ==> row == Some(ContactInformation(Addition, uri, "", EtagOf(rv))))
      && (Seen(rv) && known ==>
            var g := LastKeyWithValue(uris, uri);
            g in uris && uris[g] == uri
            && row == (if Get(etags, g) != EtagOf(rv) then Some(ContactInformation(Modification, uri, g, EtagOf(rv))) else None))
  {
    GuidForUri(uris, UriOf(rv));
  }

  /** A deletion row is inferred exactly for each membership guid whose
      stored uri the report did not list, and carries that guid's stored
      uri and etag. */
  lemma DeletionRowsMembers(guids: seq<string>, uris: map<string, string>, etags: map<string, string>, seen: set<string>, d: ContactInformation)
    ensures d in DeletionRows(guids, uris, etags, seen) <==>
      exists i :: 0 <= i < |guids| && Get(uris, guids[i]) !in seen
                  && d == ContactInformation(Deletion, Get(uris, guids[i]), guids[i], Get(etags, guids[i]))
  {
    SomesMembers(DeletionRowList(guids, uris, etags, seen), d);
    if d in DeletionRows(guids, uris, etags, seen) {
      var i :| 0 <= i < |guids| && DeletionRowList(guids, uris, etags, seen)[i] == Some(d);
      assert DeletionRow(guids[i], uris, etags, seen) == Some(d);
    }
  }

  function GuidsOf(rows: seq<ContactInformation>): (r: seq<string>)
    ensures |r| == |rows| && forall i :: 0 <= i < |rows| ==> r[i] == rows[i].guid
  {
    seq(|rows|, i requires 0 <= i < |rows| => rows[i].guid)
  }

  lemma DeletionRowsSnoc(guids: seq<string>, g: string, uris: map<string, string>, etags: map<string, string>, seen: set<string>)
    ensures DeletionRows(guids + [g], uris, etags, seen) ==
      DeletionRows(guids, uris, etags, seen) + (if Get(uris, g) in seen then [] else [ContactInformation(Deletion, Get(uris, g), g, Get(etags, g))])
  {
    assert DeletionRowList(guids + [g], uris, etags, seen) == DeletionRowList(guids, uris, etags, seen) + [DeletionRow(g, uris, etags, seen)];
    SomesSnoc(DeletionRowList(guids, uris, etags, seen), DeletionRow(g, uris, etags, seen));
  }

  /** Each unseen guid yields one deletion per occurrence in the membership
      list, so exactly one for a guid listed once; a listed guid yields
      none. */
  lemma {:induction false} DeletionCount(guids: seq<string>, uris: map<string, string>, etags: map<string, string>, seen: set<string>, g: string)
    ensures multiset(GuidsOf(DeletionRows(guids, uris, etags, seen)))[g] ==
      if Get(uris, g) in seen then 0 else multiset(guids)[g]
  {
    if guids != [] {
      var n := |guids| - 1;
      var init, last := guids[..n], guids[n];
      assert guids == init + [last];
      DeletionCount(init, uris, etags, seen, g);
      DeletionRowsSnoc(init, last, uris, etags, seen);
      var before := DeletionRows(init, uris, etags, seen);
      var extra := if Get(uris, last) in seen then [] else [ContactInformation(Deletion, Get(uris, last), last, Get(etags, last))];
      assert GuidsOf(before + extra) == GuidsOf(before) + GuidsOf(extra);
      assert multiset(guids) == multiset(init) + multiset{last};
    }
  }

  // ---------------------------------------------------------------------
  // parseContactData (src/replyparser.cpp:563-666)

  /** The vCard text of a multiget response. */
  function VCardOf(rv: Variant): string
  {
    TextAt(ToMap(rv), ["propstat", "prop", "address-data"])
  }

  /** What `convertVCardToContact` returns for the documents read from one
      vCard text (stated by CardDavVCardConverter.ConvertVCardToContact). */
  predicate ImportOk(docs: seq<VersitDocument>)
  {
    |docs| == 1 && docs[0].isVCard
  }

  function ImportedContact(doc: VersitDocument): Contact
  {
    Contact(None, MarkModifiable(ImportedDetails(doc.properties)))
  }

  /** The guid a fetched contact with a non-empty UID receives: the first
      local guid (in key order) mapped to that UID, or a new per-account
      guid "<accountId>:<UID>". */
  ghost function GuidForUid(uids: map<string, string>, accountId: nat, uid: string): string
  {
    var found := FirstKeyWithValue(uids, uid);
    if found.Some? then found.value else AccountPrefix(accountId) + uid
  }

  datatype ContactData = ContactData(byUri: map<string, FullContactInformation>, uids: map<string, string>)

  /** One multiget response: skipped when its vCard does not convert or has
      no UID, otherwise filed under its uri with its guid fixed up; a new
      guid is recorded in the uid table. */
  ghost function ContactDataStep(st: ContactData, rv: Variant, accountId: nat, read: string -> seq<VersitDocument>): ContactData
  {
    var docs := read(VCardOf(rv));
    if !ImportOk(docs) then st
    else
      var contact := ImportedContact(docs[0]);
      var uid := Guid(contact);
      if uid == "" then st
      else File(st, UriOf(rv), EtagOf(rv), contact, Cached(docs[0].properties), accountId)
  }

  /** Filing one converted contact whose UID is `Guid(contact)`. */
  ghost function File(st: ContactData, uri: string, etag: string, contact: Contact, unsupported: seq<string>, accountId: nat): ContactData
  {
    var uid := Guid(contact);
    var guid := GuidForUid(st.uids, accountId, uid);
    var fci := FullContactInformation(WithGuid(contact, guid), unsupported, etag);
    ContactData(st.byUri[uri := fci], if FirstKeyWithValue(st.uids, uid).Some? then st.uids else st.uids[guid := uid])
  }

  ghost function ContactDataFold(st: ContactData, rs: seq<Variant>, accountId: nat, read: string -> seq<VersitDocument>): ContactData
  {
    if rs == [] then st else ContactDataStep(ContactDataFold(st, rs[..|rs| - 1], accountId, read), rs[|rs| - 1], accountId, read)
  }

  /** The guid a contact receives: when some local guid already maps to its
      UID it is the least such guid and nothing is recorded; otherwise it is
      "<accountId>:<UID>", recorded as mapping to the UID (overwriting
      whatever that key held). */
  lemma GuidForUidMeaning(uids: map<string, string>, accountId: nat, uid: string)
    ensures var g := GuidForUid(uids, accountId, uid);
      && ((exists k :: k in uids && uids[k] == uid) ==>
            g in uids && uids[g] == uid && forall k :: k in uids && uids[k] == uid ==> StrLe(g, k))
      && ((forall k :: k in uids ==> uids[k] != uid) ==> g == AccountPrefix(accountId) + uid)
  {
    FirstKeyWithValueIsLeast(uids, uid);
  }

  /** Every filed contact carries a guid that the uid table maps. */
  ghost predicate GuidsMapped(st: ContactData)
  {
    forall u :: u in st.byUri ==> Guid(st.byUri[u].contact) in st.uids
  }

  /** The uid table of `b` extends that of `a`: existing keys stay, and a
      key whose value changes or that is new has this account's prefix. */
  ghost predicate UidsGrow(a: map<string, string>, b: map<string, string>, accountId: nat)
  {
    && (forall g :: g in a ==> g in b && (b[g] == a[g] || StartsWith(g, AccountPrefix(accountId))))
    && (forall g :: g in b && g !in a ==> StartsWith(g, AccountPrefix(accountId)))
  }

  lemma UidsGrowTransitive(a: map<string, string>, b: map<string, string>, c: map<string, string>, accountId: nat)
    requires UidsGrow(a, b, accountId) && UidsGrow(b, c, accountId)
    ensures UidsGrow(a, c, accountId)
  {
  }

  lemma FileFacts(st: ContactData, uri: string, etag: string, contact: Contact, unsupported: seq<string>, accountId: nat)
    ensures var r := File(st, uri, etag, contact, unsupported, accountId);
      && (GuidsMapped(st) ==> GuidsMapped(r))
      && UidsGrow(st.uids, r.uids, accountId)
      && r.byUri.Keys == st.byUri.Keys + {uri}
  {
    var uid := Guid(contact);
    FirstKeyWithValueIsLeast(st.uids, uid);
    var g := GuidForUid(st.uids, accountId, uid);
    var r := File(st, uri, etag, contact, unsupported, accountId);
    assert g in r.uids;
    assert Guid(r.byUri[uri].contact) == g;
    if FirstKeyWithValue(st.uids, uid).None? {
      assert g[..|AccountPrefix(accountId)|] == AccountPrefix(accountId);
    }
  }

  /** One response keeps the table invariants, and files at most its own
      uri. */
  lemma ContactDataStepFacts(st: ContactData, rv: Variant, accountId: nat, read: string -> seq<VersitDocument>)
    ensures var r := ContactDataStep(st, rv, accountId, read);
      && (GuidsMapped(st) ==> GuidsMapped(r))
      && UidsGrow(st.uids, r.uids, accountId)
      && r.byUri.Keys <= st.byUri.Keys + {UriOf(rv)}
  {
    var docs := read(VCardOf(rv));
    if ImportOk(docs) && Guid(ImportedContact(docs[0])) != "" {
      FileFacts(st, UriOf(rv), EtagOf(rv), ImportedContact(docs[0]), Cached(docs[0].properties), accountId);
    }
  }

  /** One multiget response: one that does not convert, or converts to a
      contact without a UID, is skipped and changes nothing; otherwise the
      contact is filed under the response's uri with its etag and cached
      properties, and its guid is the least local guid of that UID, or the
      new guid "<accountId>:<UID>" that the uid table then maps to it. No
      other uri's entry changes. */
  lemma ContactDataStepRule(st: ContactData, rv: Variant, accountId: nat, read: string -> seq<VersitDocument>)
    ensures var docs, r := read(VCardOf(rv)), ContactDataStep(st, rv, accountId, read);
      && (!ImportOk(docs) || Guid(ImportedContact(docs[0])) == "" ==> r == st)
      && (ImportOk(docs) && Guid(ImportedContact(docs[0])) != "" ==>
            var uid, uri := Guid(ImportedContact(docs[0])), UriOf(rv);
            && uri in r.byUri
            && r.byUri[uri].etag == EtagOf(rv)
            && r.byUri[uri].unsupportedProperties == Cached(docs[0].properties)
            && Guid(r.byUri[uri].contact) in r.uids && r.uids[Guid(r.byUri[uri].contact)] == uid
            && ((exists k :: k in st.uids && st.uids[k] == uid) ==>
                  r.uids == st.uids && Guid(r.byUri[uri].contact) in st.uids
                  && forall k :: k in st.uids && st.uids[k] == uid ==> StrLe(Guid(r.byUri[uri].contact), k))
            && ((forall k :: k in st.uids ==> st.uids[k] != uid) ==>
                  Guid(r.byUri[uri].contact) == AccountPrefix(accountId) + uid && r.uids == st.uids[Guid(r.byUri[uri].contact) := uid])
            && forall u :: u != uri ==> (u in r.byUri <==> u in st.byUri) && (u in st.byUri ==> r.byUri[u] == st.byUri[u]))
  {
    var docs := read(VCardOf(rv));
    if ImportOk(docs) && Guid(ImportedContact(docs[0])) != "" {
      var uid := Guid(ImportedContact(docs[0]));
      GuidForUidMeaning(st.uids, accountId, uid);
      FirstKeyWithValueIsLeast(st.uids, uid);
    }
  }

  function UrisOf(rs: seq<Variant>): set<string>
  {
    set i | 0 <= i < |rs| :: UriOf(rs[i])
  }

  lemma UrisOfSnoc(rs: seq<Variant>, rv: Variant)
    ensures UrisOf(rs + [rv]) == UrisOf(rs) + {UriOf(rv)}
  {
    var t := rs + [rv];
    assert t[|rs|] == rv;
    forall u | u in UrisOf(rs) ensures u in UrisOf(t) {
      var i :| 0 <= i < |rs| && UriOf(rs[i]) == u;
      assert t[i] == rs[i];
    }
  }

  /** The same over a whole reply: every contact filed carries a guid the
      uid table maps, the table only grows (an entry changes only when a new
      guid of this account overwrites it, and every new key has this
      account's prefix), and the result is keyed by the responses' uris. */
  lemma {:induction false} ContactDataInvariant(st: ContactData, rs: seq<Variant>, accountId: nat, read: string -> seq<VersitDocument>)
    requires GuidsMapped(st)
    ensures var r := ContactDataFold(st, rs, accountId, read);
      GuidsMapped(r) && UidsGrow(st.uids, r.uids, accountId) && r.byUri.Keys <= st.byUri.Keys + UrisOf(rs)
  {
    if rs == [] {
      assert UidsGrow(st.uids, st.uids, accountId);
    } else {
      var n := |rs| - 1;
      var init := rs[..n];
      assert rs == init + [rs[n]];
      ContactDataInvariant(st, init, accountId, read);
      var mid := ContactDataFold(st, init, accountId, read);
      ContactDataStepFacts(mid, rs[n], accountId, read);
      UidsGrowTransitive(st.uids, mid.uids, ContactDataFold(st, rs, accountId, read).uids, accountId);
      UrisOfSnoc(init, rs[n]);
    }
  }

  // ---------------------------------------------------------------------
  // One more response appended to each row list.

  lemma AddressbookRowsPrefix(rs: seq<Variant>, i: nat)
    requires i < |rs|
    ensures AddressbookRows(rs[..i + 1]) == AddressbookRows(rs[..i]) + (if AddressbookRow(rs[i]).Some? then [AddressbookRow(rs[i]).value] else [])
  {
    assert AddressbookRowList(rs[..i + 1]) == AddressbookRowList(rs[..i]) + [AddressbookRow(rs[i])];
    SomesSnoc(AddressbookRowList(rs[..i]), AddressbookRow(rs[i]));
  }

  lemma DeltaRowsPrefix(rs: seq<Variant>, i: nat, uris: map<string, string>)
    requires i < |rs|
    ensures DeltaRows(rs[..i + 1], uris) == DeltaRows(rs[..i], uris) + (if DeltaRow(rs[i], uris).Some? then [DeltaRow(rs[i], uris).value] else [])
  {
    assert DeltaRowList(rs[..i + 1], uris) == DeltaRowList(rs[..i], uris) + [DeltaRow(rs[i], uris)];
    SomesSnoc(DeltaRowList(rs[..i], uris), DeltaRow(rs[i], uris));
  }

  lemma MetadataRowsSnoc(rs: seq<Variant>, rv: Variant, uris: map<string, string>, etags: map<string, string>)
    ensures Somes(MetadataRowList(rs + [rv], uris, etags)) ==
      Somes(MetadataRowList(rs, uris, etags)) + (if MetadataRow(rv, uris, etags).Some? then [MetadataRow(rv, uris, etags).value] else [])
  {
    assert MetadataRowList(rs + [rv], uris, etags) == MetadataRowList(rs, uris, etags) + [MetadataRow(rv, uris, etags)];
    SomesSnoc(MetadataRowList(rs, uris, etags), MetadataRow(rv, uris, etags));
  }

  lemma EtagReadsSnoc(rs: seq<Variant>, rv: Variant, uris: map<string, string>)
    ensures Somes(EtagReadList(rs + [rv], uris)) ==
      Somes(EtagReadList(rs, uris)) + (if Seen(rv) && LastKeyWithValue(uris, UriOf(rv)) != "" then [LastKeyWithValue(uris, UriOf(rv))] else [])
  {
    var g := LastKeyWithValue(uris, UriOf(rv));
    var o := if Seen(rv) && g != "" then Some(g) else None;
    assert EtagReadList(rs + [rv], uris) == EtagReadList(rs, uris) + [o];
    SomesSnoc(EtagReadList(rs, uris), o);
  }

  /** One more response extends the rows, the etag reads and the listed
      uris of a metadata report by that response's own. */
  lemma MetadataScanSnoc(rs: seq<Variant>, rv: Variant, uris: map<string, string>, etags: map<string, string>)
    ensures Somes(MetadataRowList(rs + [rv], uris, etags)) ==
      Somes(MetadataRowList(rs, uris, etags)) + (if MetadataRow(rv, uris, etags).Some? then [MetadataRow(rv, uris, etags).value] else [])
    ensures Somes(EtagReadList(rs + [rv], uris)) ==
      Somes(EtagReadList(rs, uris)) + (if Seen(rv) && LastKeyWithValue(uris, UriOf(rv)) != "" then [LastKeyWithValue(uris, UriOf(rv))] else [])
    ensures SeenUris(rs + [rv]) == SeenUris(rs) + (if Seen(rv) then {UriOf(rv)} else {})
  {
    MetadataRowsSnoc(rs, rv, uris, etags);
    EtagReadsSnoc(rs, rv, uris);
    SeenUrisSnoc(rs, rv);
  }

  lemma SeenUrisSnoc(rs: seq<Variant>, rv: Variant)
    ensures SeenUris(rs + [rv]) == SeenUris(rs) + (if Seen(rv) then {UriOf(rv)} else {})
  {
    var t := rs + [rv];
    assert t[|rs|] == rv;
    forall u | u in SeenUris(rs) ensures u in SeenUris(t) {
      var i :| 0 <= i < |rs| && Seen(rs[i]) && UriOf(rs[i]) == u;
      assert t[i] == rs[i];
    }
  }

  lemma UnseenSnoc(guids: seq<string>, g: string, uris: map<string, string>, seen: set<string>)
    ensures Somes(Unseen(guids + [g], uris, seen)) == Somes(Unseen(guids, uris, seen)) + (if Get(uris, g) in seen then [] else [g])
  {
    assert Unseen(guids + [g], uris, seen) == Unseen(guids, uris, seen) + [if Get(uris, g) in seen then None else Some(g)];
    SomesSnoc(Unseen(guids, uris, seen), if Get(uris, g) in seen then None else Some(g));
  }

  lemma ContactDataFoldPrefix(st: ContactData, rs: seq<Variant>, i: nat, accountId: nat, read: string -> seq<VersitDocument>)
    requires i < |rs|
    ensures ContactDataFold(st, rs[..i + 1], accountId, read) == ContactDataStep(ContactDataFold(st, rs[..i], accountId, read), rs[i], accountId, read)
  {
    assert rs[..i + 1][..i] == rs[..i];
  }

  lemma PropstatFoldSnoc(init: PropstatScan, ps: seq<Variant>, pv: Variant)
    ensures PropstatFold(init, ps + [pv]) == PropstatStep(PropstatFold(init, ps), pv)
  {
    assert (ps + [pv])[..|ps|] == ps;
  }

  // ---------------------------------------------------------------------
  // The parser object.

  class ReplyParser {
    const q: Syncer
    const converter: CardDavVCardConverter

    constructor (q: Syncer, converter: CardDavVCardConverter)
      ensures this.q == q && this.converter == converter
    {
      this.q := q;
      this.converter := converter;
    }

    /** src/replyparser.cpp:205-222: the token loop. */
    method ParseAddressbookHome(roots: seq<Element>) returns (addressbookHome: string)
      ensures addressbookHome == AddressbookHome(roots)
    {
      var toks := DocumentTokens(roots);
      var statusText := "";
      addressbookHome := "";
      var i := 0;
      var hasError := false;
      while i < |toks| && !hasError
        invariant 0 <= i <= |toks|
        invariant !hasError ==> HomeScan(toks, i, addressbookHome, statusText) == HomeScan(toks, 0, "", "")
        invariant hasError ==> addressbookHome == HomeScan(toks, 0, "", "").0
        decreases |toks| - i, !hasError
      {
        HomeIgnoresStatus(toks, i, addressbookHome, statusText, "");
        var token := toks[i];
        i := i + 1;
        if token.StartTag? {
          if token.name == HomeSetName {
            var (found, j) := NextStart(toks, i);
            i := j;
            if found && toks[j - 1].name == "href" {
              var (t, k, err) := ElementText(toks, i, "");
              addressbookHome, i, hasError := t, k, err;
            }
          } else if token.name == "status" {
            var (t, k, err) := ElementText(toks, i, "");
            statusText, i, hasError := t, k, err;
            if hasError {
              HomeIgnoresStatus(toks, i - 1, addressbookHome, statusText, "");
            }
          }
        }
      }
    }
      /** src/replyparser.cpp:225-376: one pass over the responses, and for
        each an inner pass over its propstats. */
    method ParseAddressbookInformation(roots: seq<Element>) returns (infos: seq<AddressBookInformation>)
      ensures infos == AddressbookRows(Responses(Multistatus(roots)))
    {
      var vmap := XmlToVMap(roots);
      var responses := Responses(Sub(vmap, "multistatus"));
      infos := [];
      var i := 0;
      while i < |responses|
        invariant 0 <= i <= |responses|
        invariant infos == AddressbookRows(responses[..i])
      {
        var row := ScanResponse(responses[i]);
        AddressbookRowsPrefix(responses, i);
        if row.Some? {
          infos := infos + [row.value];
        }
        i := i + 1;
      }
      assert responses[..i] == responses;
    }

    /** src/replyparser.cpp:256-364: the propstats of one response
        scanned in order, then the acceptance decision. */
    method ScanResponse(rv: Variant) returns (row: Option<AddressBookInformation>)
      ensures row == AddressbookRow(rv)
    {
      var rmap := ToMap(rv);
      var propstats := Propstats(rmap);
      var scan := ScanPropstats(InitialScan(rmap), propstats);
      row := if Accepted(scan, |propstats|) then Some(scan.info) else None;
    }

    /** src/replyparser.cpp:282-347: the loop over one response's
        propstats. */
    method ScanPropstats(init: PropstatScan, propstats: seq<Variant>) returns (scan: PropstatScan)
      ensures scan == PropstatFold(init, propstats)
    {
      scan := init;
      var j := 0;
      while j < |propstats|
        invariant 0 <= j <= |propstats|
        invariant scan == PropstatFold(init, propstats[..j])
      {
        PropstatFoldSnoc(init, propstats[..j], propstats[j]);
        assert propstats[..j + 1] == propstats[..j] + [propstats[j]];
        scan := PropstatStep(scan, propstats[j]);
        j := j + 1;
      }
      assert propstats[..j] == propstats;
    }

    /** src/replyparser.cpp:378-458: the new sync token, and one row per
        response, classified by its status. */
    method ParseSyncTokenDelta(roots: seq<Element>) returns (infos: seq<ContactInformation>, newSyncToken: string)
      ensures newSyncToken == TextAt(Multistatus(roots), ["sync-token"])
      ensures infos == DeltaRows(Responses(Multistatus(roots)), q.contactUris)
    {
      var vmap := XmlToVMap(roots);
      var multistatus := Sub(vmap, "multistatus");
      newSyncToken := TextAt(multistatus, ["sync-token"]);
      var responses := Responses(multistatus);
      infos := [];
      var i := 0;
      while i < |responses|
        invariant 0 <= i <= |responses|
        invariant infos == DeltaRows(responses[..i], q.contactUris)
      {
        var rv := responses[i];
        var uri, etag := UriOf(rv), EtagOf(rv);
        var guid := LastGuidForUri(q.contactUris, uri);
        var row := DeltaClass(uri, etag, guid, RowStatus(rv));
        DeltaRowsPrefix(responses, i, q.contactUris);
        if row.Some? {
          infos := infos + [row.value];
        }
        i := i + 1;
      }
      assert responses[..i] == responses;
    }

    /** src/replyparser.cpp:460-561: additions and modifications from the
        report, then a deletion for every guid of the addressbook whose uri
        the report did not list. Reading the tables with `operator[]` inserts
        the keys it reads. */
    method ParseContactMetadata(roots: seq<Element>, addressbookUrl: string) returns (infos: seq<ContactInformation>)
      modifies q`contactEtags, q`contactUris, q`addressbookContactGuids
      ensures var rs, guids := Responses(Multistatus(roots)), GetList(old(q.addressbookContactGuids), addressbookUrl);
        && infos == MetadataRows(rs, guids, old(q.contactUris), old(q.contactEtags))
        && q.contactUris == TouchAll(old(q.contactUris), guids)
        && q.contactEtags == TouchAll(TouchAll(old(q.contactEtags), Somes(EtagReadList(rs, old(q.contactUris)))),
                                      Somes(Unseen(guids, old(q.contactUris), SeenUris(rs))))
        && q.addressbookContactGuids == TouchList(old(q.addressbookContactGuids), addressbookUrl)
    {
      var vmap := XmlToVMap(roots);
      var responses := Responses(Sub(vmap, "multistatus"));
      ghost var etags0 := q.contactEtags;
      var found, seenUris := ScanMetadata(responses);
      var guids := GetList(q.addressbookContactGuids, addressbookUrl);
      q.addressbookContactGuids := TouchList(q.addressbookContactGuids, addressbookUrl);
      var deletions := InferDeletions(guids, seenUris, etags0);
      infos := found + deletions;
    }

    /** src/replyparser.cpp:502-541: the responses of the report. */
    method ScanMetadata(responses: seq<Variant>) returns (infos: seq<ContactInformation>, seenUris: set<string>)
      modifies q`contactEtags
      ensures infos == Somes(MetadataRowList(responses, q.contactUris, old(q.contactEtags)))
      ensures seenUris == SeenUris(responses)
      ensures q.contactEtags == TouchAll(old(q.contactEtags), Somes(EtagReadList(responses, q.contactUris)))
    {
      var uris, etags := q.contactUris, q.contactEtags;
      ghost var etags0 := etags;
      seenUris := {};
      infos := [];
      var i := 0;
      while i < |responses|
        invariant 0 <= i <= |responses|
        invariant infos == Somes(MetadataRowList(responses[..i], uris, etags0))
        invariant seenUris == SeenUris(responses[..i])
        invariant etags == TouchAll(etags0, Somes(EtagReadList(responses[..i], uris)))
      {
        var rv := responses[i];
        ghost var done := responses[..i];
        MetadataScanSnoc(done, rv, uris, etags0);
        assert responses[..i + 1] == done + [rv];
        var row, seen;
        row, seen, etags := MetadataStep(rv, uris, etags0, etags, Somes(EtagReadList(done, uris)));
        if seen {
          seenUris := seenUris + {UriOf(rv)};
        }
        if row.Some? {
          infos := infos + [row.value];
        }
        i := i + 1;
      }
      assert responses[..i] == responses;
      q.contactEtags := etags;
    }

    /** One response of the metadata report (src/replyparser.cpp:503-536):
        its row, whether its uri counts as listed, and the etag table after
        the stored etag of a known uri is read through `operator[]`. */
    method MetadataStep(rv: Variant, uris: map<string, string>, ghost etags0: map<string, string>,
                        etags: map<string, string>, ghost readsBefore: seq<string>)
      returns (row: Option<ContactInformation>, seen: bool, etags': map<string, string>)
      requires etags == TouchAll(etags0, readsBefore)
      ensures row == MetadataRow(rv, uris, etags0)
      ensures seen == Seen(rv)
      ensures etags' == TouchAll(etags0, readsBefore +
        (if Seen(rv) && LastKeyWithValue(uris, UriOf(rv)) != "" then [LastKeyWithValue(uris, UriOf(rv))] else []))
    {
      row, seen, etags' := None, false, etags;
      assert readsBefore + [] == readsBefore;
      var uri, etag := UriOf(rv), EtagOf(rv);
      if EndsWithIgnoreCase(uri, ".vcf") {
        var guid := LastGuidForUri(uris, uri);
        if Contains(RowStatus(rv), "200 OK") {
          seen := true;
          if guid == "" {
            row := Some(ContactInformation(Addition, uri, guid, etag));
          } else {
            var known := Get(etags, guid);
            assert known == Get(etags0, guid);
            TouchAllSnoc(etags0, readsBefore, guid);
            etags' := Touch(etags, guid);
            if known != etag {
              row := Some(ContactInformation(Modification, uri, guid, etag));
            }
          }
        }
      }
    }

    /** src/replyparser.cpp:543-558: the deletions inferred from the
        addressbook's membership list. `etags0` is the etag table before the
        report was scanned (reading it since has changed no value). */
    method InferDeletions(guids: seq<string>, seenUris: set<string>, ghost etags0: map<string, string>)
      returns (infos: seq<ContactInformation>)
      requires forall x :: Get(q.contactEtags, x) == Get(etags0, x)
      modifies q`contactEtags, q`contactUris
      ensures infos == DeletionRows(guids, old(q.contactUris), etags0, seenUris)
      ensures q.contactUris == TouchAll(old(q.contactUris), guids)
      ensures q.contactEtags == TouchAll(old(q.contactEtags), Somes(Unseen(guids, old(q.contactUris), seenUris)))
    {
      ghost var uris0, etags1 := q.contactUris, q.contactEtags;
      var uris, etags := q.contactUris, q.contactEtags;
      infos := [];
      var j := 0;
      while j < |guids|
        invariant 0 <= j <= |guids|
        invariant uris == TouchAll(uris0, guids[..j])
        invariant etags == TouchAll(etags1, Somes(Unseen(guids[..j], uris0, seenUris)))
        invariant infos == DeletionRows(guids[..j], uris0, etags0, seenUris)
      {
        var guid := guids[j];
        ghost var done := guids[..j];
        assert guids[..j + 1] == done + [guid];
        ghost var readBefore := Somes(Unseen(done, uris0, seenUris));
        ghost var rowsBefore := DeletionRows(done, uris0, etags0, seenUris);
        TouchAllSnoc(uris0, done, guid);
        UnseenSnoc(done, guid, uris0, seenUris);
        DeletionRowsSnoc(done, guid, uris0, etags0, seenUris);
        ghost var readAfter := Somes(Unseen(done + [guid], uris0, seenUris));
        ghost var rowsAfter := DeletionRows(done + [guid], uris0, etags0, seenUris);
        var uri := Get(uris, guid);
        assert uri == Get(uris0, guid);
        uris := Touch(uris, guid);
        if uri !in seenUris {
          var etag := Get(etags, guid);
          assert etag == Get(etags0, guid);
          TouchAllSnoc(etags1, readBefore, guid);
          etags := Touch(etags, guid);
          assert etags == TouchAll(etags1, readBefore + [guid]) && readAfter == readBefore + [guid];
          infos := infos + [ContactInformation(Deletion, uri, guid, etag)];
          assert rowsAfter == infos;
        } else {
          assert readAfter == readBefore && rowsAfter == rowsBefore;
        }
        j := j + 1;
      }
      assert guids[..j] == guids;
      q.contactUris, q.contactEtags := uris, etags;
    }

    /** src/replyparser.cpp:563-666: each multiget response converted and
        filed under its uri; a contact whose UID is new gets a guid of this
        account, which is recorded in the uid table. */
    method ParseContactData(roots: seq<Element>, read: string -> seq<VersitDocument>)
      returns (uriToContactData: map<string, FullContactInformation>)
      requires converter.Idle()
      modifies q`contactUids, converter
      ensures converter.Idle()
      ensures ContactData(uriToContactData, q.contactUids) ==
        ContactDataFold(ContactData(map[], old(q.contactUids)), Responses(Multistatus(roots)), q.accountId, read)
    {
      var vmap := XmlToVMap(roots);
      var responses := Responses(Sub(vmap, "multistatus"));
      ghost var st0 := ContactData(map[], q.contactUids);
      uriToContactData := map[];
      var i := 0;
      while i < |responses|
        invariant 0 <= i <= |responses|
        invariant converter.Idle()
        invariant ContactData(uriToContactData, q.contactUids) == ContactDataFold(st0, responses[..i], q.accountId, read)
      {
        var rv := responses[i];
        ContactDataFoldPrefix(st0, responses, i, q.accountId, read);
        i := i + 1;
        var ok, contact, unsupported := converter.ConvertVCardToContact(read(VCardOf(rv)));
        if !ok {
          continue;
        }
        var uid := Guid(contact);
        if uid == "" {
          continue;
        }
        var found, guid := FirstGuidForUid(q.contactUids, uid);
        if !found {
          guid := AccountPrefix(q.accountId) + uid;
          q.contactUids := q.contactUids[guid := uid];
        }
        uriToContactData := uriToContactData[UriOf(rv) := FullContactInformation(WithGuid(contact, guid), unsupported, EtagOf(rv))];
      }
      assert responses[..i] == responses;
    }
  }
}
