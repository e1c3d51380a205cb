/** Selecting the items of a list that pass a test, in order. */
module Lists {
  function Filter<T>(s: seq<T>, keep: T -> bool): seq<T> {
    if s == [] then []
    else
      var front := Filter(s[..|s| - 1], keep);
      if keep(s[|s| - 1]) then front + [s[|s| - 1]] else front
  }

  lemma {:induction false} FilterItems<T>(s: seq<T>, keep: T -> bool)
    ensures forall x :: x in Filter(s, keep) ==> x in s && keep(x)
    ensures forall x :: x in s && keep(x) ==> x in Filter(s, keep)
  {
    if s == [] {
    } else {
      FilterItems(s[..|s| - 1], keep);
      assert s == s[..|s| - 1] + [s[|s| - 1]];
    }
  }

  lemma {:induction false} FilterAll<T>(s: seq<T>, keep: T -> bool)
    requires forall x :: x in s ==> keep(x)
    ensures Filter(s, keep) == s
  {
    if s == [] {
    } else {
      FilterAll(s[..|s| - 1], keep);
      assert s == s[..|s| - 1] + [s[|s| - 1]];
    }
  }

  lemma {:induction false} FilterAppend<T>(s: seq<T>, t: seq<T>, keep: T -> bool)
    ensures Filter(s + t, keep) == Filter(s, keep) + Filter(t, keep)
  {
    if t == [] {
      assert s + t == s;
    } else {
      assert (s + t)[..|s + t| - 1] == s + t[..|t| - 1];
      FilterAppend(s, t[..|t| - 1], keep);
    }
  }

  /** Two selections in a row are one. */
  lemma {:induction false} FilterTwice<T>(s: seq<T>, p: T -> bool, q: T -> bool, both: T -> bool)
    requires forall x :: x in s ==> both(x) == (p(x) && q(x))
    ensures Filter(Filter(s, p), q) == Filter(s, both)
  {
    if s == [] {
    } else {
      var front, x := s[..|s| - 1], s[|s| - 1];
      FilterTwice(front, p, q, both);
      assert x in s;
      FilterAppend(Filter(front, p), [x], q);
      assert [x][..0] == [];
    }
  }

  lemma FilterOne<T>(s: seq<T>, x: T, keep: T -> bool)
    ensures Filter(s + [x], keep) == Filter(s, keep) + (if keep(x) then [x] else [])
  {
    assert (s + [x])[..|s|] == s;
    assert Filter(s, keep) + [] == Filter(s, keep);
  }

  /** An item that an insertion passes by changes nothing, unless both are kept. */
  lemma PassesBy<T>(front: seq<T>, last: T, inserted: seq<T>, x: T, keep: T -> bool)
    requires Filter(inserted, keep) == Filter(front, keep) + (if keep(x) then [x] else [])
    requires !keep(last) || !keep(x)
    ensures Filter(inserted + [last], keep) == Filter(front + [last], keep) + (if keep(x) then [x] else [])
  {
    FilterOne(inserted, last, keep);
    FilterOne(front, last, keep);
  }

  // ---------------------------------------------------------------- first occurrences

  /** The items that are not skipped, each where it first occurs. */
  function FirstOfEach<K(==)>(keys: seq<K>, skip: K -> bool): seq<K> {
    if keys == [] then []
    else
      var front, x := FirstOfEach(keys[..|keys| - 1], skip), keys[|keys| - 1];
      if skip(x) || x in front then front else front + [x]
  }

  ghost predicate IsFirst<K>(keys: seq<K>, k: nat, skip: K -> bool)
    requires k < |keys|
  {
    !skip(keys[k]) && keys[k] !in keys[..k]
  }

  ghost predicate Increasing(at: seq<nat>) {
    forall i, j :: 0 <= i < j < |at| ==> at[i] < at[j]
  }

  /** `at` lists, in order, exactly the places of first occurrences. */
  ghost predicate FirstPlaces<K>(keys: seq<K>, at: seq<nat>, skip: K -> bool) {
    Increasing(at) && forall k: nat :: k in at <==> k < |keys| && IsFirst(keys, k, skip)
  }

  lemma {:induction false} FirstOfEachItems<K>(keys: seq<K>, skip: K -> bool)
    ensures forall x :: x in FirstOfEach(keys, skip) <==> x in keys && !skip(x)
  {
    if keys == [] {
    } else {
      FirstOfEachItems(keys[..|keys| - 1], skip);
      assert keys == keys[..|keys| - 1] + [keys[|keys| - 1]];
    }
  }

  lemma FirstPlacesStep<K>(keys: seq<K>, x: K, at: seq<nat>, skip: K -> bool)
    requires FirstPlaces(keys, at, skip)
    ensures FirstPlaces(keys + [x], if skip(x) || x in keys then at else at + [|keys|], skip)
  {
    var all, more := keys + [x], if skip(x) || x in keys then at else at + [|keys|];
    forall k: nat ensures k in more <==> k < |all| && IsFirst(all, k, skip) {
      assert k in at <==> k < |keys| && IsFirst(keys, k, skip);
      if k < |keys| {
        assert all[..k] == keys[..k];
      } else if k == |keys| {
        assert all[..k] == keys;
      }
    }
    forall i | 0 <= i < |at| ensures at[i] < |keys| {
      assert at[i] in at;
    }
  }

  /** The places of first occurrences. */
  function Places<K(==)>(keys: seq<K>, skip: K -> bool): seq<nat> {
    if keys == [] then []
    else
      var front, x := keys[..|keys| - 1], keys[|keys| - 1];
      if skip(x) || x in front then Places(front, skip) else Places(front, skip) + [|front|]
  }

  lemma {:induction false} PlacesAreFirst<K>(keys: seq<K>, skip: K -> bool)
    ensures FirstPlaces(keys, Places(keys, skip), skip)
  {
    if keys == [] {
    } else {
      var front, x := keys[..|keys| - 1], keys[|keys| - 1];
      PlacesAreFirst(front, skip);
      FirstPlacesStep(front, x, Places(front, skip), skip);
      assert keys == front + [x];
    }
  }

  /** What `FirstOfEach` lists: the items at the first places, in their order. */
  lemma {:induction false} FirstOfEachMeaning<K>(keys: seq<K>, skip: K -> bool) returns (at: seq<nat>)
    ensures FirstPlaces(keys, at, skip)
    ensures |FirstOfEach(keys, skip)| == |at|
    ensures forall i :: 0 <= i < |at| ==> at[i] < |keys| && FirstOfEach(keys, skip)[i] == keys[at[i]]
  {
    if keys == [] {
      at := [];
    } else {
      var front, x := keys[..|keys| - 1], keys[|keys| - 1];
      var before := FirstOfEachMeaning(front, skip);
      FirstOfEachItems(front, skip);
      FirstPlacesStep(front, x, before, skip);
      assert keys == front + [x];
      at := if skip(x) || x in front then before else before + [|front|];
    }
  }
}
