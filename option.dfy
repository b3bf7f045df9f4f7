/** The optional value the model uses for lookups that may fail and for
    results the client treats as absent (a null QContactId, a missing
    profile), and the list of present values of a sequence of options: what
    a loop that `continue`s past some entries and appends the others
    produces. */
module Optional {
  datatype Option<T> = None | Some(value: T)

  function Somes<T>(os: seq<Option<T>>): seq<T>
  {
    if os == [] then []
    else Somes(os[..|os| - 1]) + (if os[|os| - 1].Some? then [os[|os| - 1].value] else [])
  }

  /** Appending one more entry appends its value, if it has one. */
  lemma SomesSnoc<T>(os: seq<Option<T>>, o: Option<T>)
    ensures Somes(os + [o]) == Somes(os) + (if o.Some? then [o.value] else [])
  {
    assert (os + [o])[..|os|] == os;
  }

  /** The values kept are exactly those of the entries that have one. */
  lemma {:induction false} SomesMembers<T>(os: seq<Option<T>>, x: T)
    ensures |Somes(os)| <= |os|
    ensures x in Somes(os) <==> exists i :: 0 <= i < |os| && os[i] == Some(x)
  {
    if os != [] {
      var n := |os| - 1;
      var init := os[..n];
      SomesMembers(init, x);
      if exists i :: 0 <= i < |os| && os[i] == Some(x) {
        var i :| 0 <= i < |os| && os[i] == Some(x);
        if i < n { assert init[i] == os[i]; }
      }
    }
  }
}
