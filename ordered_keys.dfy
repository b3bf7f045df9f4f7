/** QMap iterates its entries in ascending key order. This module gives that
    order for a Dafny map's key set (`Sorted`), computes it (`SortKeys`), and
    states what the two scans over a QMap<QString, QString> that the client
    performs return: the last key whose value matches (the uri->guid scans,
    which keep overwriting their result) and the first one (the uid->guid
    scan, which breaks at its first hit). */
module OrderedKeys {
  import opened Strings
  import opened Optional

  lemma {:induction false} LeastExists(keys: set<string>)
    requires keys != {}
    ensures exists m :: m in keys && forall k :: k in keys ==> StrLe(m, k)
  {
    var x :| x in keys;
    if keys != {x} {
      var rest := keys - {x};
      LeastExists(rest);
      var m :| m in rest && forall k :: k in rest ==> StrLe(m, k);
      StrLtTotal(x, m);
      if StrLt(x, m) {
        forall k | k in keys ensures StrLe(x, k) {
          if k != x { StrLeTransitive(x, m, k); }
        }
      } else {
        assert forall k :: k in keys ==> StrLe(m, k);
      }
    }
  }

  /** The least key of a non-empty key set: what `keys().first()` returns. */
  ghost function Least(keys: set<string>): (m: string)
    requires keys != {}
    ensures m in keys && forall k :: k in keys ==> StrLe(m, k)
  {
    LeastExists(keys);
    var m :| m in keys && forall k :: k in keys ==> StrLe(m, k);
    m
  }

  lemma LeastUnique(keys: set<string>, m: string)
    requires m in keys && forall k :: k in keys ==> StrLe(m, k)
    ensures m == Least(keys)
  {
    StrLeAntisymmetric(m, Least(keys));
  }

  predicate StrictlyIncreasing(s: seq<string>)
  {
    forall i, j :: 0 <= i < j < |s| ==> StrLt(s[i], s[j])
  }

  /** The keys of a set in ascending order: QMap's iteration order. */
  ghost function Sorted(keys: set<string>): seq<string>
    decreases keys
  {
    if keys == {} then [] else [Least(keys)] + Sorted(keys - {Least(keys)})
  }

  lemma {:induction false} SortedIsOrder(keys: set<string>)
    decreases keys
    ensures |Sorted(keys)| == |keys|
    ensures forall k :: k in Sorted(keys) <==> k in keys
    ensures StrictlyIncreasing(Sorted(keys))
  {
    if keys != {} {
      var m := Least(keys);
      var rest := Sorted(keys - {m});
      SortedIsOrder(keys - {m});
      assert Sorted(keys) == [m] + rest;
      forall i, j | 0 <= i < j < |Sorted(keys)| ensures StrLt(Sorted(keys)[i], Sorted(keys)[j]) {
        assert rest[j - 1] in keys - {m};
        if i > 0 {
          assert Sorted(keys)[i] == rest[i - 1] && Sorted(keys)[j] == rest[j - 1];
        }
      }
    }
  }

  /** Selects the least remaining key by one scan over the set. */
  method LeastKey(keys: set<string>) returns (m: string)
    requires keys != {}
    ensures m == Least(keys)
  {
    m :| m in keys;
    var rest := keys - {m};
    while rest != {}
      invariant rest <= keys && m in keys
      invariant forall k :: k in keys - rest ==> StrLe(m, k)
      decreases rest
    {
      var k :| k in rest;
      StrLtTotal(k, m);
      if StrLt(k, m) {
        forall j | j in keys - rest ensures StrLe(k, j) {
          StrLeTransitive(k, m, j);
        }
        m := k;
      }
      rest := rest - {k};
    }
    LeastUnique(keys, m);
  }

  /** The keys of a map in QMap iteration order. */
  method SortKeys(keys: set<string>) returns (r: seq<string>)
    ensures r == Sorted(keys)
  {
    r := [];
    var rest := keys;
    while rest != {}
      invariant rest <= keys
      invariant r + Sorted(rest) == Sorted(keys)
      decreases rest
    {
      var m := LeastKey(rest);
      assert Sorted(rest) == [m] + Sorted(rest - {m});
      assert r + Sorted(rest) == (r + [m]) + Sorted(rest - {m});
      r := r + [m];
      rest := rest - {m};
    }
  }

  /** The result of `for (key in order) if (m[key] == v) result = key;`,
      starting from the empty string. */
  ghost function LastMatch(order: seq<string>, m: map<string, string>, v: string): string
    requires forall k :: k in order ==> k in m
  {
    if order == [] then ""
    else if m[order[|order| - 1]] == v then order[|order| - 1]
    else LastMatch(order[..|order| - 1], m, v)
  }

  /** The result of `for (key in order) if (m[key] == v) { result = key; break; }`. */
  ghost function FirstMatch(order: seq<string>, m: map<string, string>, v: string): (r: Option<string>)
    requires forall k :: k in order ==> k in m
  {
    if order == [] then None
    else if m[order[0]] == v then Some(order[0])
    else FirstMatch(order[1..], m, v)
  }

  lemma {:induction false} LastMatchIsGreatest(order: seq<string>, m: map<string, string>, v: string)
    requires forall k :: k in order ==> k in m
    requires StrictlyIncreasing(order)
    ensures var r := LastMatch(order, m, v);
      && ((forall k :: k in order ==> m[k] != v) ==> r == "")
      && ((exists k :: k in order && m[k] == v) ==>
            r in order && m[r] == v && forall k :: k in order && m[k] == v ==> StrLe(k, r))
  {
    if order != [] {
      var n := |order| - 1;
      var init := order[..n];
      assert forall k :: k in order <==> k in init || k == order[n];
      LastMatchIsGreatest(init, m, v);
      if m[order[n]] == v {
        forall k | k in order && m[k] == v ensures StrLe(k, order[n]) {
          var i :| 0 <= i < |order| && order[i] == k;
          if i < n { assert StrLt(order[i], order[n]); }
        }
      }
    }
  }

  lemma {:induction false} FirstMatchIsLeast(order: seq<string>, m: map<string, string>, v: string)
    requires forall k :: k in order ==> k in m
    requires StrictlyIncreasing(order)
    ensures var r := FirstMatch(order, m, v);
      && (r.None? <==> forall k :: k in order ==> m[k] != v)
      && (r.Some? ==> r.value in order && m[r.value] == v
                      && forall k :: k in order && m[k] == v ==> StrLe(r.value, k))
  {
    if order != [] {
      var tail := order[1..];
      assert forall k :: k in order <==> k == order[0] || k in tail;
      FirstMatchIsLeast(tail, m, v);
      if m[order[0]] == v {
        forall k | k in order && m[k] == v ensures StrLe(order[0], k) {
          var i :| 0 <= i < |order| && order[i] == k;
          if i > 0 { assert StrLt(order[0], order[i]); }
        }
      }
    }
  }

  /** The uri->guid lookup (src/replyparser.cpp:432-437, 515-520): the last
      guid in key order whose uri matches, or "" if none does. */
  ghost function LastKeyWithValue(m: map<string, string>, v: string): string
  {
    SortedIsOrder(m.Keys);
    LastMatch(Sorted(m.Keys), m, v)
  }

  /** The uid->guid lookup (src/replyparser.cpp:639-648): the first guid in
      key order whose uid matches. */
  ghost function FirstKeyWithValue(m: map<string, string>, v: string): Option<string>
  {
    SortedIsOrder(m.Keys);
    FirstMatch(Sorted(m.Keys), m, v)
  }

  /** "Keeps the last match": the greatest key mapped to `v`, or "" when no
      key is. */
  lemma LastKeyWithValueIsGreatest(m: map<string, string>, v: string)
    ensures var r := LastKeyWithValue(m, v);
      && ((forall k :: k in m ==> m[k] != v) ==> r == "")
      && ((exists k :: k in m && m[k] == v) ==>
            r in m && m[r] == v && forall k :: k in m && m[k] == v ==> StrLe(k, r))
  {
    SortedIsOrder(m.Keys);
    LastMatchIsGreatest(Sorted(m.Keys), m, v);
  }

  /** "Stops at the first match": the least key mapped to `v`, if any. */
  lemma FirstKeyWithValueIsLeast(m: map<string, string>, v: string)
    ensures var r := FirstKeyWithValue(m, v);
      && (r.None? <==> forall k :: k in m ==> m[k] != v)
      && (r.Some? ==> r.value in m && m[r.value] == v
                      && forall k :: k in m && m[k] == v ==> StrLe(r.value, k))
  {
    SortedIsOrder(m.Keys);
    FirstMatchIsLeast(Sorted(m.Keys), m, v);
  }

  /** The scan of src/replyparser.cpp:432-437 over the map in key order. */
  method LastGuidForUri(uris: map<string, string>, uri: string) returns (guid: string)
    ensures guid == LastKeyWithValue(uris, uri)
  {
    var order := SortKeys(uris.Keys);
    SortedIsOrder(uris.Keys);
    guid := "";
    var j := 0;
    while j < |order|
      invariant 0 <= j <= |order|
      invariant guid == LastMatch(order[..j], uris, uri)
    {
      assert order[..j + 1][..j] == order[..j];
      if uris[order[j]] == uri {
        guid := order[j];
      }
      j := j + 1;
    }
    assert order[..|order|] == order;
  }

  /** The scan of src/replyparser.cpp:639-648, which breaks at its first hit. */
  method FirstGuidForUid(uids: map<string, string>, uid: string) returns (found: bool, guid: string)
    ensures found <==> FirstKeyWithValue(uids, uid).Some?
    ensures found ==> guid == FirstKeyWithValue(uids, uid).value
  {
    var order := SortKeys(uids.Keys);
    SortedIsOrder(uids.Keys);
    found, guid := false, "";
    var j := 0;
    while j < |order| && !found
      invariant 0 <= j <= |order|
      invariant !found ==> FirstMatch(order[j..], uids, uid) == FirstMatch(order, uids, uid)
      invariant found ==> FirstMatch(order, uids, uid) == Some(guid)
    {
      assert order[j..][1..] == order[j + 1..];
      if uids[order[j]] == uid {
        guid := order[j];
        found := true;
      }
      j := j + 1;
    }
  }
}
