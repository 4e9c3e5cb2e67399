/** The "What do you need help with?" picker of the contact form: the fixed
    list of service options and the toggle that adds or removes one of them
    from the list of selected services (src/App.jsx:175-180, 199). */
module ServicePicker {

  /** The options offered as buttons, in display order. */
  const Options: seq<string> := ["Paid Social", "Paid Search", "Creative", "CRO", "Email/SMS"]

  /** The elements of a list, forgetting order and multiplicity. */
  function Elems(s: seq<string>): set<string> {
    set y | y in s
  }

  /** No element occurs twice. */
  predicate Distinct(s: seq<string>) {
    forall i, j :: 0 <= i < j < |s| ==> s[i] != s[j]
  }

  /** `s.filter(y => y !== x)`: every occurrence of `x` dropped, everything
      else kept with its multiplicity. */
  function RemoveAll(s: seq<string>, x: string): (r: seq<string>)
    ensures multiset(r) == multiset(s)[x := 0]
    ensures forall y :: y in r <==> y in s && y != x
    ensures |r| <= |s|
  {
    if s == [] then []
    else
      assert s == [s[0]] + s[1..];
      if s[0] == x then RemoveAll(s[1..], x)
      else [s[0]] + RemoveAll(s[1..], x)
  }

  /** `toggleService`: a selected service is removed (every occurrence of it),
      an unselected one is appended at the end. */
  function Toggle(s: seq<string>, x: string): (r: seq<string>)
    ensures x in s ==> x !in r && multiset(r) == multiset(s)[x := 0]
    ensures x !in s ==> |r| == |s| + 1 && r[..|s|] == s && r[|s|] == x
    ensures Elems(r) == if x in s then Elems(s) - {x} else Elems(s) + {x}
  {
    if x in s then RemoveAll(s, x) else s + [x]
  }

  /** Filtering out an element that is not there gives back the same list. */
  lemma {:induction false} RemoveAllAbsent(s: seq<string>, x: string)
    requires x !in s
    ensures RemoveAll(s, x) == s
  {
    if s != [] {
      RemoveAllAbsent(s[1..], x);
    }
  }

  /** Filtering distributes over concatenation, so the survivors keep their
      relative order. */
  lemma {:induction false} RemoveAllAppend(a: seq<string>, b: seq<string>, x: string)
    ensures RemoveAll(a + b, x) == RemoveAll(a, x) + RemoveAll(b, x)
  {
    if a != [] {
      assert (a + b)[0] == a[0] && (a + b)[1..] == a[1..] + b;
      RemoveAllAppend(a[1..], b, x);
    } else {
      assert a + b == b;
    }
  }

  /** Filtering never introduces a duplicate. */
  lemma {:induction false} RemoveAllDistinct(s: seq<string>, x: string)
    requires Distinct(s)
    ensures Distinct(RemoveAll(s, x))
  {
    if s != [] {
      assert Distinct(s[1..]) by {
        forall i, j | 0 <= i < j < |s[1..]|
          ensures s[1..][i] != s[1..][j]
        {
          assert s[1..][i] == s[i + 1] && s[1..][j] == s[j + 1];
        }
      }
      RemoveAllDistinct(s[1..], x);
      if s[0] != x {
        var t := RemoveAll(s[1..], x);
        assert s[0] !in s[1..];
        assert s[0] !in t;
        forall i, j | 0 <= i < j < |[s[0]] + t|
          ensures ([s[0]] + t)[i] != ([s[0]] + t)[j]
        {
          if i == 0 {
            assert ([s[0]] + t)[j] == t[j - 1];
          } else {
            assert ([s[0]] + t)[i] == t[i - 1] && ([s[0]] + t)[j] == t[j - 1];
          }
        }
      }
    }
  }

  /** If the selection has no duplicates before a toggle, it has none after. */
  lemma ToggleKeepsDistinct(s: seq<string>, x: string)
    requires Distinct(s)
    ensures Distinct(Toggle(s, x))
  {
    if x in s {
      RemoveAllDistinct(s, x);
    } else {
      var r := s + [x];
      forall i, j | 0 <= i < j < |r|
        ensures r[i] != r[j]
      {
        if j == |s| {
          assert r[i] == s[i];
        } else {
          assert r[i] == s[i] && r[j] == s[j];
        }
      }
    }
  }

  /** Toggling an unselected service twice gives back the identical list. */
  lemma ToggleTwiceFromAbsent(s: seq<string>, x: string)
    requires x !in s
    ensures Toggle(Toggle(s, x), x) == s
  {
    RemoveAllAppend(s, [x], x);
    RemoveAllAbsent(s, x);
    assert RemoveAll([x], x) == [];
  }

  /** Toggling a selected service twice moves it to the end: the same set of
      services, but as a list only the other services in their old order
      followed by the toggled one. */
  lemma ToggleTwiceFromPresent(s: seq<string>, x: string)
    requires x in s
    ensures Toggle(Toggle(s, x), x) == RemoveAll(s, x) + [x]
    ensures Elems(Toggle(Toggle(s, x), x)) == Elems(s)
  {
  }

  /** A selected service that is already last comes back to the same place:
      toggling it twice gives back the identical list. */
  lemma ToggleTwiceRestoresLast(s: seq<string>, x: string)
    requires Distinct(s) && |s| > 0 && s[|s| - 1] == x
    ensures Toggle(Toggle(s, x), x) == s
  {
    var p := s[..|s| - 1];
    assert s == p + [x];
    assert x !in p by {
      forall i | 0 <= i < |p|
        ensures p[i] != x
      {
        assert p[i] == s[i];
      }
    }
    assert x in s;
    ToggleTwiceFromPresent(s, x);
    RemoveAllAppend(p, [x], x);
    RemoveAllAbsent(p, x);
    assert RemoveAll([x], x) == [];
  }

  /** A double toggle always leaves the toggled service last, so it can only
      give back the identical list when the service was last already. */
  lemma ToggleTwiceEndsWith(s: seq<string>, x: string)
    requires x in s
    ensures |Toggle(Toggle(s, x), x)| > 0
    ensures Toggle(Toggle(s, x), x)[|Toggle(Toggle(s, x), x)| - 1] == x
  {
    ToggleTwiceFromPresent(s, x);
  }

  /** For a duplicate-free selection containing `x`, toggling `x` twice gives
      back the identical list exactly when `x` was the last element. */
  lemma ToggleTwiceRestoresIff(s: seq<string>, x: string)
    requires Distinct(s) && x in s
    ensures Toggle(Toggle(s, x), x) == s <==> s[|s| - 1] == x
  {
    ToggleTwiceEndsWith(s, x);
    if s[|s| - 1] == x {
      ToggleTwiceRestoresLast(s, x);
    }
  }

  /** A concrete witness that the double toggle is not the identity on lists:
      "Paid Social" selected before "CRO" ends up after it. */
  lemma ToggleTwiceReorders()
    ensures Toggle(Toggle(["Paid Social", "CRO"], "Paid Social"), "Paid Social") == ["CRO", "Paid Social"]
    ensures Toggle(Toggle(["Paid Social", "CRO"], "Paid Social"), "Paid Social") != ["Paid Social", "CRO"]
  {
    var s := ["Paid Social", "CRO"];
    ToggleTwiceFromPresent(s, "Paid Social");
    assert RemoveAll(s, "Paid Social") == ["CRO"] by {
      assert s[1..] == ["CRO"];
      assert RemoveAll(s[1..], "Paid Social") == ["CRO"] by {
        assert ["CRO"][1..] == [];
      }
    }
  }

  /** Toggling one of the offered options keeps the selection within the
      offered options. */
  lemma ToggleStaysWithinOptions(s: seq<string>, x: string)
    requires Elems(s) <= Elems(Options) && x in Options
    ensures Elems(Toggle(s, x)) <= Elems(Options)
  {
  }
}
