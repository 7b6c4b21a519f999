/** Python dictionaries built from lists: keys keep the place of their first appearance, later values
    replace earlier ones. Such a dictionary is the sequence of its values, each carrying its key. */
module OrderedDict {
  import opened Wrappers
  import opened Sequences

  /** What the dictionary of a list holds for a key: the last element with that key. */
  function Find<T, K(==)>(s: seq<T>, key: T -> K, k: K): (r: Option<T>)
    ensures r.Some? ==> r.value in s && key(r.value) == k
    ensures r.None? ==> forall i :: 0 <= i < |s| ==> key(s[i]) != k
  {
    if s == [] then None
    else if key(s[|s| - 1]) == k then Some(s[|s| - 1])
    else Find(s[..|s| - 1], key, k)
  }

  function Insert<T, K(==)>(d: seq<T>, x: T, key: T -> K): seq<T> {
    if d == [] then [x]
    else if key(d[0]) == key(x) then [x] + d[1..]
    else [d[0]] + Insert(d[1..], x, key)
  }

  /** The values of the dictionary of a list, in its order. */
  function Collect<T, K(==)>(s: seq<T>, key: T -> K): seq<T> {
    if s == [] then [] else Insert(Collect(s[..|s| - 1], key), s[|s| - 1], key)
  }

  ghost predicate DistinctKeys<T, K>(s: seq<T>, key: T -> K) {
    forall i, j :: 0 <= i < j < |s| ==> key(s[i]) != key(s[j])
  }

  lemma {:induction false} InsertElements<T, K>(d: seq<T>, x: T, key: T -> K)
    requires DistinctKeys(d, key)
    ensures DistinctKeys(Insert(d, x, key), key)
    ensures x in Insert(d, x, key)
    ensures forall y :: y in Insert(d, x, key) ==> y == x || (y in d && key(y) != key(x))
    ensures forall y :: y in d && key(y) != key(x) ==> y in Insert(d, x, key)
  {
    if d != [] {
      var rest := Insert(d[1..], x, key);
      InsertElements(d[1..], x, key);
      assert d == [d[0]] + d[1..];
      assert forall i :: 0 <= i < |d[1..]| ==> d[1..][i] == d[i + 1];
      if key(d[0]) != key(x) {
        forall i | 0 <= i < |rest| ensures key(rest[i]) != key(d[0]) {
          assert rest[i] in rest;
        }
      }
    }
  }

  /** The dictionary holds the last element for each key of the list, and nothing else. */
  lemma {:induction false} CollectElements<T, K>(s: seq<T>, key: T -> K)
    ensures DistinctKeys(Collect(s, key), key)
    ensures forall y :: y in Collect(s, key) ==> Find(s, key, key(y)) == Some(y)
    ensures forall y :: y in s ==> exists z :: z in Collect(s, key) && key(z) == key(y)
  {
    if s != [] {
      var init, x := s[..|s| - 1], s[|s| - 1];
      CollectElements(init, key);
      InsertElements(Collect(init, key), x, key);
      assert s == init + [x];
    }
  }

  /** Element i is the last with its key. */
  ghost predicate IsLast<T, K>(s: seq<T>, key: T -> K, i: nat) {
    i < |s| && forall j :: i < j < |s| ==> key(s[j]) != key(s[i])
  }

  /** What is found for a key is the last element with it. */
  lemma {:induction false} FindLast<T, K>(s: seq<T>, key: T -> K, k: K)
    ensures forall i: nat :: IsLast(s, key, i) && key(s[i]) == k ==> Find(s, key, k) == Some(s[i])
    ensures Find(s, key, k).Some? ==> exists i: nat :: IsLast(s, key, i) && s[i] == Find(s, key, k).value
  {
    if s != [] {
      var n := |s| - 1;
      FindLast(s[..n], key, k);
      if key(s[n]) == k {
        assert IsLast(s, key, n);
      } else {
        assert forall i: nat :: IsLast(s, key, i) && key(s[i]) == k ==> IsLast(s[..n], key, i);
        assert forall i: nat :: IsLast(s[..n], key, i) && key(s[i]) == k ==> IsLast(s, key, i);
      }
    }
  }

  lemma FindAppend<T, K>(s: seq<T>, x: T, key: T -> K, k: K)
    ensures Find(s + [x], key, k) == if key(x) == k then Some(x) else Find(s, key, k)
  {
    assert (s + [x])[..|s|] == s;
  }

  lemma CollectHasLast<T, K>(s: seq<T>, key: T -> K, i: nat)
    requires IsLast(s, key, i)
    ensures s[i] in Collect(s, key)
  {
    CollectElements(s, key);
    FindLast(s, key, key(s[i]));
    var z :| z in Collect(s, key) && key(z) == key(s[i]);
  }

  // ----- the order of a dictionary -----

  /** Element i is the first with its key. */
  ghost predicate IsFirst<T, K>(s: seq<T>, key: T -> K, i: nat) {
    i < |s| && forall j :: 0 <= j < i ==> key(s[j]) != key(s[i])
  }

  /** The keys of d are those of s at the given places, where s mentions them first. */
  ghost predicate FirstPlaces<T, K>(d: seq<T>, s: seq<T>, key: T -> K, places: seq<nat>) {
    && |places| == |d| && (forall m :: 0 <= m < |d| ==> IsFirst(s, key, places[m]) && key(s[places[m]]) == key(d[m]))
    && forall m, n :: 0 <= m < n < |d| ==> places[m] < places[n]
  }

  lemma {:induction false} InsertKeys<T, K>(d: seq<T>, x: T, key: T -> K)
    ensures if exists m :: 0 <= m < |d| && key(d[m]) == key(x)
      then |Insert(d, x, key)| == |d| && forall m :: 0 <= m < |d| ==> key(Insert(d, x, key)[m]) == key(d[m])
      else Insert(d, x, key) == d + [x]
  {
    if d != [] && key(d[0]) != key(x) {
      InsertKeys(d[1..], x, key);
      assert d == [d[0]] + d[1..];
      if exists m :: 0 <= m < |d| && key(d[m]) == key(x) {
        var m :| 0 <= m < |d| && key(d[m]) == key(x);
        assert d[1..][m - 1] == d[m];
      } else {
        assert forall m :: 0 <= m < |d[1..]| ==> d[1..][m] == d[m + 1];
      }
    }
  }

  /** The keys of a dictionary of a list come in the order in which the list first mentions them. */
  lemma {:induction false} CollectOrder<T, K>(s: seq<T>, key: T -> K) returns (places: seq<nat>)
    ensures FirstPlaces(Collect(s, key), s, key, places)
  {
    places := [];
    if s != [] {
      var init, x := s[..|s| - 1], s[|s| - 1];
      var d := Collect(init, key);
      places := CollectOrder(init, key);
      InsertKeys(d, x, key);
      forall m | 0 <= m < |d| ensures IsFirst(s, key, places[m]) && key(s[places[m]]) == key(d[m]) {
        assert IsFirst(init, key, places[m]);
      }
      if m :| 0 <= m < |d| && key(d[m]) == key(x) {
        assert |Insert(d, x, key)| == |d|;
      } else {
        CollectNew(init, x, key);
        assert init + [x] == s;
        places := places + [|init|];
      }
    }
  }

  lemma CollectNew<T, K>(s: seq<T>, x: T, key: T -> K)
    requires forall m :: 0 <= m < |Collect(s, key)| ==> key(Collect(s, key)[m]) != key(x)
    ensures IsFirst(s + [x], key, |s|)
  {
    CollectElements(s, key);
    forall j | 0 <= j < |s| ensures key(s[j]) != key(x) {
      assert s[j] in s;
    }
  }

  lemma FindUnique<T, K>(s: seq<T>, key: T -> K, x: T)
    requires DistinctKeys(s, key) && x in s
    ensures Find(s, key, key(x)) == Some(x)
  {
  }

  lemma {:induction false} InsertNew<T, K>(d: seq<T>, x: T, key: T -> K)
    requires forall i :: 0 <= i < |d| ==> key(d[i]) != key(x)
    ensures Insert(d, x, key) == d + [x]
  {
    if d != [] {
      InsertNew(d[1..], x, key);
      assert d == [d[0]] + d[1..];
    }
  }

  /** A list without repeated keys is its own dictionary. */
  lemma {:induction false} CollectDistinct<T, K>(s: seq<T>, key: T -> K)
    requires DistinctKeys(s, key)
    ensures Collect(s, key) == s
  {
    if s != [] {
      CollectDistinct(s[..|s| - 1], key);
      InsertNew(s[..|s| - 1], s[|s| - 1], key);
    }
  }

  lemma {:induction false} FilterKeys<T, K>(s: seq<T>, keep: T -> bool, key: T -> K)
    requires DistinctKeys(s, key)
    ensures DistinctKeys(Filter(s, keep), key)
  {
    if s != [] {
      var init := s[..|s| - 1];
      FilterKeys(init, keep, key);
      FilterElements(init, keep);
      var kept := Filter(init, keep);
      forall i | 0 <= i < |kept| ensures key(kept[i]) != key(s[|s| - 1]) {
        assert kept[i] in init;
      }
    }
  }
}
