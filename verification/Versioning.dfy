/** Selecting the newest of some revisions by the semantic versions in their tags. */
module Versioning {
  import opened Wrappers
  import opened OrderedDict

  type Uuid = int

  /** Identifiers of a prerelease; build metadata has no precedence and is left out. */
  datatype Identifier = Numeric(n: nat) | Alphanumeric(s: string)

  datatype Version = Version(major: nat, minor: nat, patch: nat, prerelease: seq<Identifier>)

  function CompareInt(a: int, b: int): int {
    if a < b then -1 else if b < a then 1 else 0
  }

  /** Element by element; a proper prefix comes first. */
  function Lexicographic<T>(a: seq<T>, b: seq<T>, compare: (T, T) -> int): int {
    if a == [] then (if b == [] then 0 else -1)
    else if b == [] then 1
    else if compare(a[0], b[0]) != 0 then compare(a[0], b[0])
    else Lexicographic(a[1..], b[1..], compare)
  }

  function CompareChar(a: char, b: char): int {
    CompareInt(a as int, b as int)
  }

  /** Numeric identifiers have lower precedence than alphanumeric ones. */
  function CompareIdentifier(a: Identifier, b: Identifier): int {
    match (a, b)
    case (Numeric(m), Numeric(n)) => CompareInt(m, n)
    case (Numeric(_), Alphanumeric(_)) => -1
    case (Alphanumeric(_), Numeric(_)) => 1
    case (Alphanumeric(s), Alphanumeric(t)) => Lexicographic(s, t, CompareChar)
  }

  /** A prerelease comes before the release. */
  function ComparePrerelease(a: seq<Identifier>, b: seq<Identifier>): int {
    if a == [] || b == [] then CompareInt(if a == [] then 1 else 0, if b == [] then 1 else 0)
    else Lexicographic(a, b, CompareIdentifier)
  }

  /** Precedence as in section 11 of Semantic Versioning 2.0.0. */
  function Compare(a: Version, b: Version): int {
    if a.major != b.major then CompareInt(a.major, b.major)
    else if a.minor != b.minor then CompareInt(a.minor, b.minor)
    else if a.patch != b.patch then CompareInt(a.patch, b.patch)
    else ComparePrerelease(a.prerelease, b.prerelease)
  }

  /** Tags that cannot be parsed come first. */
  function SafeCompare(a: Option<Version>, b: Option<Version>): int {
    if a.None? && b.None? then 0
    else if a.None? then -1
    else if b.None? then 1
    else if Compare(a.value, b.value) < 0 then -1
    else if Compare(b.value, a.value) < 0 then 1
    else 0
  }

  // ----- comparisons are total preorders -----

  ghost predicate Antisymmetric<T(!new)>(compare: (T, T) -> int) {
    forall a, b :: compare(a, b) == -compare(b, a)
  }

  ghost predicate Transitive<T(!new)>(compare: (T, T) -> int) {
    forall a, b, c :: compare(a, b) <= 0 && compare(b, c) <= 0 ==> compare(a, c) <= 0
  }

  ghost predicate TotalPreorder<T(!new)>(compare: (T, T) -> int) {
    Antisymmetric(compare) && Transitive(compare)
  }

  lemma {:induction false} LexicographicAntisymmetric<T(!new)>(a: seq<T>, b: seq<T>, compare: (T, T) -> int)
    requires Antisymmetric(compare)
    ensures Lexicographic(a, b, compare) == -Lexicographic(b, a, compare)
  {
    if a != [] && b != [] {
      assert compare(a[0], b[0]) == -compare(b[0], a[0]);
      LexicographicAntisymmetric(a[1..], b[1..], compare);
    }
  }

  lemma {:induction false} LexicographicTransitive<T(!new)>(a: seq<T>, b: seq<T>, c: seq<T>, compare: (T, T) -> int)
    requires TotalPreorder(compare)
    requires Lexicographic(a, b, compare) <= 0 && Lexicographic(b, c, compare) <= 0
    ensures Lexicographic(a, c, compare) <= 0
  {
    if a != [] && b != [] && c != [] {
      var x, y, z := a[0], b[0], c[0];
      assert compare(x, y) == -compare(y, x) && compare(y, z) == -compare(z, y) && compare(x, z) == -compare(z, x);
      assert compare(x, y) <= 0 && compare(y, z) <= 0 ==> compare(x, z) <= 0;
      assert compare(y, z) <= 0 && compare(z, x) <= 0 ==> compare(y, x) <= 0;
      assert compare(z, x) <= 0 && compare(x, y) <= 0 ==> compare(z, y) <= 0;
      if compare(x, y) == 0 && compare(y, z) == 0 {
        LexicographicTransitive(a[1..], b[1..], c[1..], compare);
      }
    }
  }

  lemma LexicographicPreorder<T(!new)>(compare: (T, T) -> int)
    requires TotalPreorder(compare)
    ensures TotalPreorder((a: seq<T>, b: seq<T>) => Lexicographic(a, b, compare))
  {
    forall a: seq<T>, b: seq<T> ensures Lexicographic(a, b, compare) == -Lexicographic(b, a, compare) {
      LexicographicAntisymmetric(a, b, compare);
    }
    forall a: seq<T>, b: seq<T>, c: seq<T> | Lexicographic(a, b, compare) <= 0 && Lexicographic(b, c, compare) <= 0
      ensures Lexicographic(a, c, compare) <= 0
    {
      LexicographicTransitive(a, b, c, compare);
    }
  }

  lemma IdentifierPreorder()
    ensures TotalPreorder(CompareIdentifier)
  {
    assert TotalPreorder(CompareChar);
    LexicographicPreorder(CompareChar);
    forall a: Identifier, b: Identifier ensures CompareIdentifier(a, b) == -CompareIdentifier(b, a) {
      if a.Alphanumeric? && b.Alphanumeric? {
        LexicographicAntisymmetric(a.s, b.s, CompareChar);
      }
    }
    forall a: Identifier, b: Identifier, c: Identifier | CompareIdentifier(a, b) <= 0 && CompareIdentifier(b, c) <= 0
      ensures CompareIdentifier(a, c) <= 0
    {
      if a.Alphanumeric? && b.Alphanumeric? && c.Alphanumeric? {
        LexicographicTransitive(a.s, b.s, c.s, CompareChar);
      }
    }
  }

  lemma PrereleasePreorder()
    ensures TotalPreorder(ComparePrerelease)
  {
    IdentifierPreorder();
    forall a: seq<Identifier>, b: seq<Identifier> ensures ComparePrerelease(a, b) == -ComparePrerelease(b, a) {
      LexicographicAntisymmetric(a, b, CompareIdentifier);
    }
    forall a: seq<Identifier>, b: seq<Identifier>, c: seq<Identifier> | ComparePrerelease(a, b) <= 0 && ComparePrerelease(b, c) <= 0
      ensures ComparePrerelease(a, c) <= 0
    {
      if a != [] && b != [] && c != [] {
        LexicographicTransitive(a, b, c, CompareIdentifier);
      }
    }
  }

  /** Comparing tags is a total preorder with the tags that cannot be parsed at the bottom. */
  lemma SafeComparePreorder()
    ensures TotalPreorder(SafeCompare)
    ensures forall v :: SafeCompare(None, v) <= 0 && (SafeCompare(v, None) <= 0 ==> v.None?)
  {
    hide ComparePrerelease;
    PrereleasePreorder();
    assert forall p, q :: ComparePrerelease(p, q) == -ComparePrerelease(q, p);
    forall a: Version, b: Version ensures Compare(a, b) == -Compare(b, a) {
    }
    forall a: Version, b: Version, c: Version | Compare(a, b) <= 0 && Compare(b, c) <= 0 ensures Compare(a, c) <= 0 {
    }
    forall a: Option<Version>, b: Option<Version>, c: Option<Version> | SafeCompare(a, b) <= 0 && SafeCompare(b, c) <= 0
      ensures SafeCompare(a, c) <= 0
    {
    }
  }

  // ----- what precedence means -----

  /** a is less than b: the first difference is at k, or a ends where b goes on. */
  ghost predicate FirstDifference<T>(a: seq<T>, b: seq<T>, k: nat) {
    k <= |a| && k < |b| && a[..k] == b[..k] && (k < |a| ==> a[k] != b[k])
  }

  lemma {:induction false} FirstDifferenceExists<T>(a: seq<T>, b: seq<T>)
    ensures a == b || exists k: nat :: FirstDifference(a, b, k) || FirstDifference(b, a, k)
  {
    if a != [] && b != [] && a[0] == b[0] {
      FirstDifferenceExists(a[1..], b[1..]);
      if a[1..] == b[1..] {
        assert a == [a[0]] + a[1..] && b == [b[0]] + b[1..];
      } else {
        var k: nat :| FirstDifference(a[1..], b[1..], k) || FirstDifference(b[1..], a[1..], k);
        assert a[..k + 1] == [a[0]] + a[1..][..k] && b[..k + 1] == [b[0]] + b[1..][..k];
        assert FirstDifference(a, b, k + 1) || FirstDifference(b, a, k + 1);
      }
    } else if a != b {
      assert FirstDifference(a, b, 0) || FirstDifference(b, a, 0);
    }
  }

  lemma {:induction false} LexicographicByDifference<T(!new)>(a: seq<T>, b: seq<T>, k: nat, compare: (T, T) -> int)
    requires FirstDifference(a, b, k) && forall x :: compare(x, x) == 0
    requires k < |a| ==> compare(a[k], b[k]) != 0
    ensures Lexicographic(a, b, compare) == if k < |a| then compare(a[k], b[k]) else -1
  {
    if k > 0 {
      assert a[0] == a[..k][0] == b[..k][0] == b[0];
      assert a[1..][..k - 1] == a[..k][1..] && b[1..][..k - 1] == b[..k][1..];
      LexicographicByDifference(a[1..], b[1..], k - 1, compare);
    }
  }

  /** One character sequence comes before another if at the first difference it has the smaller
      character, or ends there. */
  ghost predicate TextBefore(s: string, t: string) {
    exists k: nat :: FirstDifference(s, t, k) && (k < |s| ==> s[k] < t[k])
  }

  /** Numbers come before everything else and are ordered by value. */
  ghost predicate IdentifierBefore(a: Identifier, b: Identifier) {
    match (a, b)
    case (Numeric(m), Numeric(n)) => m < n
    case (Numeric(_), Alphanumeric(_)) => true
    case (Alphanumeric(_), Numeric(_)) => false
    case (Alphanumeric(s), Alphanumeric(t)) => TextBefore(s, t)
  }

  /** A prerelease comes before its release; others are decided by the first identifier that differs, and
      more identifiers win. */
  ghost predicate PrereleaseBefore(p: seq<Identifier>, q: seq<Identifier>) {
    || (p != [] && q == [])
    || (p != [] && exists k: nat :: FirstDifference(p, q, k) && (k < |p| ==> IdentifierBefore(p[k], q[k])))
  }

  /** Precedence as in section 11 of Semantic Versioning 2.0.0. */
  ghost predicate Precedes(a: Version, b: Version) {
    || a.major < b.major
    || (a.major == b.major && a.minor < b.minor)
    || (a.major == b.major && a.minor == b.minor && a.patch < b.patch)
    || (a.major == b.major && a.minor == b.minor && a.patch == b.patch && PrereleaseBefore(a.prerelease, b.prerelease))
  }

  lemma TextExact(s: string, t: string)
    ensures Lexicographic(s, t, CompareChar) < 0 <==> TextBefore(s, t)
    ensures Lexicographic(s, t, CompareChar) == 0 <==> s == t
  {
    FirstDifferenceExists(s, t);
    LexicographicAntisymmetric(s, t, CompareChar);
    forall k: nat | FirstDifference(s, t, k) ensures Lexicographic(s, t, CompareChar) == if k < |s| then CompareChar(s[k], t[k]) else -1 {
      LexicographicByDifference(s, t, k, CompareChar);
    }
    forall k: nat | FirstDifference(t, s, k) ensures Lexicographic(t, s, CompareChar) == if k < |t| then CompareChar(t[k], s[k]) else -1 {
      LexicographicByDifference(t, s, k, CompareChar);
    }
  }

  lemma IdentifierExact(a: Identifier, b: Identifier)
    ensures CompareIdentifier(a, b) < 0 <==> IdentifierBefore(a, b)
    ensures CompareIdentifier(a, b) == 0 <==> a == b
  {
    if a.Alphanumeric? && b.Alphanumeric? {
      TextExact(a.s, b.s);
    }
  }

  lemma PrereleaseExact(p: seq<Identifier>, q: seq<Identifier>)
    ensures ComparePrerelease(p, q) < 0 <==> PrereleaseBefore(p, q)
  {
    hide CompareIdentifier, IdentifierBefore;
    IdentifierPreorder();
    FirstDifferenceExists(p, q);
    LexicographicAntisymmetric(p, q, CompareIdentifier);
    forall a: Identifier, b: Identifier ensures CompareIdentifier(a, b) < 0 <==> IdentifierBefore(a, b)
      ensures CompareIdentifier(a, b) == 0 <==> a == b
    {
      IdentifierExact(a, b);
    }
    forall k: nat | FirstDifference(p, q, k) ensures Lexicographic(p, q, CompareIdentifier) == if k < |p| then CompareIdentifier(p[k], q[k]) else -1 {
      LexicographicByDifference(p, q, k, CompareIdentifier);
    }
    forall k: nat | FirstDifference(q, p, k) ensures Lexicographic(q, p, CompareIdentifier) == if k < |q| then CompareIdentifier(q[k], p[k]) else -1 {
      LexicographicByDifference(q, p, k, CompareIdentifier);
    }
  }

  /** Comparing tags is comparing by precedence, with tags that cannot be parsed before all others. */
  lemma SafeCompareExact(a: Option<Version>, b: Option<Version>)
    ensures SafeCompare(a, b) < 0 <==> b.Some? && (a.Some? ==> Precedes(a.value, b.value))
    ensures SafeCompare(a, b) > 0 <==> a.Some? && (b.Some? ==> Precedes(b.value, a.value))
  {
    hide ComparePrerelease, PrereleaseBefore;
    if a.Some? && b.Some? {
      PrereleaseExact(a.value.prerelease, b.value.prerelease);
      PrereleaseExact(b.value.prerelease, a.value.prerelease);
      PrereleasePreorder();
      assert ComparePrerelease(a.value.prerelease, b.value.prerelease) == -ComparePrerelease(b.value.prerelease, a.value.prerelease);
    }
  }

  // ----- the newest revision -----

  datatype Revision = Revision(id: Uuid, versionTag: string)

  function IdOf(r: Revision): Uuid { r.id }

  /** Sorting by insertion behind everything that is not greater: the stable sort. */
  function InsertStable<T>(s: seq<T>, x: T, compare: (T, T) -> int): seq<T> {
    if s == [] || compare(s[|s| - 1], x) <= 0 then s + [x]
    else InsertStable(s[..|s| - 1], x, compare) + [s[|s| - 1]]
  }

  function Sort<T>(s: seq<T>, compare: (T, T) -> int): (r: seq<T>)
    ensures |r| == |s|
  {
    if s == [] then []
    else
      var r := InsertStable(Sort(s[..|s| - 1], compare), s[|s| - 1], compare);
      InsertedOne(Sort(s[..|s| - 1], compare), s[|s| - 1], compare);
      r
  }

  lemma {:induction false} InsertedOne<T>(s: seq<T>, x: T, compare: (T, T) -> int)
    ensures multiset(InsertStable(s, x, compare)) == multiset(s) + multiset{x}
    ensures |InsertStable(s, x, compare)| == |s| + 1
  {
    if s != [] && compare(s[|s| - 1], x) > 0 {
      InsertedOne(s[..|s| - 1], x, compare);
      assert s == s[..|s| - 1] + [s[|s| - 1]];
    }
  }

  function CompareRevisions(parse: string -> Option<Version>): (Revision, Revision) -> int {
    (a: Revision, b: Revision) => SafeCompare(parse(a.versionTag), parse(b.versionTag))
  }

  function GetNewestBySemver(trafos: seq<Revision>, parse: string -> Option<Version>): Option<Revision> {
    var byId := Collect(trafos, IdOf);
    var sorted := Sort(byId, CompareRevisions(parse));
    if sorted == [] then None
    else
      var winner := sorted[|sorted| - 1];
      if parse(winner.versionTag).None? then None else Some(winner)
  }

  ghost predicate IsSorted<T>(s: seq<T>, compare: (T, T) -> int) {
    forall i, j :: 0 <= i < j < |s| ==> compare(s[i], s[j]) <= 0
  }

  lemma {:induction false} InsertSorted<T(!new)>(s: seq<T>, x: T, compare: (T, T) -> int)
    requires TotalPreorder(compare) && IsSorted(s, compare)
    ensures IsSorted(InsertStable(s, x, compare), compare)
    ensures forall y :: y in InsertStable(s, x, compare) <==> y in s || y == x
  {
    if s != [] {
      var last, init := s[|s| - 1], s[..|s| - 1];
      assert s == init + [last];
      assert compare(x, last) == -compare(last, x);
      if compare(last, x) > 0 {
        InsertSorted(init, x, compare);
        var r := InsertStable(init, x, compare);
        forall i | 0 <= i < |r| ensures compare(r[i], last) <= 0 {
          assert r[i] in r;
        }
      }
    }
  }

  /** The k-th element is greatest, and everything behind it is less. */
  ghost predicate LastGreatest<T>(s: seq<T>, k: nat, compare: (T, T) -> int) {
    k < |s| && (forall i :: 0 <= i < |s| ==> compare(s[i], s[k]) <= 0) && (forall i :: k < i < |s| ==> compare(s[i], s[k]) < 0)
  }

  lemma {:induction false} SortSorts<T(!new)>(s: seq<T>, compare: (T, T) -> int)
    requires TotalPreorder(compare)
    ensures IsSorted(Sort(s, compare), compare) && multiset(Sort(s, compare)) == multiset(s)
  {
    if s != [] {
      var init, x := s[..|s| - 1], s[|s| - 1];
      SortSorts(init, compare);
      assert s == init + [x];
      InsertedOne(Sort(init, compare), x, compare);
      InsertSorted(Sort(init, compare), x, compare);
    }
  }

  lemma InsertLast<T>(s: seq<T>, x: T, compare: (T, T) -> int)
    ensures var r := InsertStable(s, x, compare);
      r != [] && r[|r| - 1] == if s != [] && compare(s[|s| - 1], x) > 0 then s[|s| - 1] else x
  {
  }

  /** Sorting puts last the last among the greatest elements. */
  lemma {:induction false} SortLast<T(!new)>(s: seq<T>, compare: (T, T) -> int) returns (k: nat)
    requires TotalPreorder(compare) && s != []
    ensures LastGreatest(s, k, compare) && s[k] == Sort(s, compare)[|s| - 1]
  {
    hide InsertStable, TotalPreorder, LastGreatest;
    var init, x := s[..|s| - 1], s[|s| - 1];
    InsertLast(Sort(init, compare), x, compare);
    assert s == init + [x];
    if init == [] {
      k := 0;
      OnlyGreatest(x, compare);
    } else {
      k := SortLast(init, compare);
      LastGreatestStep(init, x, k, compare);
      if compare(init[k], x) <= 0 {
        k := |init|;
      }
    }
  }

  lemma OnlyGreatest<T(!new)>(x: T, compare: (T, T) -> int)
    requires TotalPreorder(compare)
    ensures LastGreatest([x], 0, compare)
  {
    assert compare(x, x) == -compare(x, x);
  }

  lemma LastGreatestStep<T(!new)>(s: seq<T>, x: T, k: nat, compare: (T, T) -> int)
    requires TotalPreorder(compare) && LastGreatest(s, k, compare)
    ensures k < |s| && LastGreatest(s + [x], if compare(s[k], x) <= 0 then |s| else k, compare)
  {
    var y := s[k];
    OnlyGreatest(x, compare);
    assert compare(x, y) == -compare(y, x);
    if compare(y, x) <= 0 {
      forall i | 0 <= i < |s| ensures compare((s + [x])[i], x) <= 0 {
        assert compare(s[i], y) <= 0;
      }
    }
  }

  lemma RevisionPreorder(parse: string -> Option<Version>)
    ensures TotalPreorder(CompareRevisions(parse))
  {
    hide SafeCompare;
    SafeComparePreorder();
    var c := CompareRevisions(parse);
    forall x: Revision, y: Revision ensures c(x, y) == -c(y, x) {
      var u, v := parse(x.versionTag), parse(y.versionTag);
      assert SafeCompare(u, v) == -SafeCompare(v, u);
    }
    forall x: Revision, y: Revision, z: Revision | c(x, y) <= 0 && c(y, z) <= 0 ensures c(x, z) <= 0 {
      var u, v, w := parse(x.versionTag), parse(y.versionTag), parse(z.versionTag);
      assert SafeCompare(u, v) <= 0 && SafeCompare(v, w) <= 0;
    }
  }

  /** The newest revision is one of greatest version, the last of these in the dictionary of the given
      revisions by id; there is none exactly if no tag in the dictionary can be parsed. */
  lemma NewestIsGreatest(trafos: seq<Revision>, parse: string -> Option<Version>)
    ensures var r, byId := GetNewestBySemver(trafos, parse), Collect(trafos, IdOf);
      && (r.None? <==> forall t :: t in byId ==> parse(t.versionTag).None?)
      && (r.Some? ==> exists k: nat :: LastGreatest(byId, k, CompareRevisions(parse)) && byId[k] == r.value)
  {
    hide Sort, Collect, SafeCompare, TotalPreorder;
    RevisionPreorder(parse);
    var c, byId := CompareRevisions(parse), Collect(trafos, IdOf);
    if byId != [] {
      var k := SortLast(byId, c);
      SafeComparePreorder();
      if parse(byId[k].versionTag).None? {
        forall t | t in byId ensures parse(t.versionTag).None? {
          assert c(t, byId[k]) <= 0;
        }
      }
    }
  }

  /** No revision that was given last under its id precedes the selected one by precedence of section 11,
      and tags that cannot be parsed never win: in particular a release is never beaten by a prerelease of
      the same version. */
  lemma NothingPrecedesNewest(trafos: seq<Revision>, parse: string -> Option<Version>, i: nat)
    requires i < |trafos| && forall j :: i < j < |trafos| ==> trafos[j].id != trafos[i].id
    requires parse(trafos[i].versionTag).Some?
    ensures var r := GetNewestBySemver(trafos, parse);
      && r.Some? && r.value in trafos && parse(r.value.versionTag).Some?
      && !Precedes(parse(r.value.versionTag).value, parse(trafos[i].versionTag).value)
  {
    hide Sort, SafeCompare, Precedes;
    NewestIsGreatest(trafos, parse);
    CollectHasLast(trafos, IdOf, i);
    CollectElements(trafos, IdOf);
    var r, byId, c := GetNewestBySemver(trafos, parse), Collect(trafos, IdOf), CompareRevisions(parse);
    assert trafos[i] in byId;
    var k: nat :| LastGreatest(byId, k, c) && byId[k] == r.value;
    var m :| 0 <= m < |byId| && byId[m] == trafos[i];
    assert c(byId[m], byId[k]) <= 0;
    SafeCompareExact(parse(trafos[i].versionTag), parse(r.value.versionTag));
  }

  /** With one revision for each id the dictionary is the list. */
  lemma NewestOfDistinct(trafos: seq<Revision>, parse: string -> Option<Version>)
    requires DistinctKeys(trafos, IdOf)
    ensures var r := GetNewestBySemver(trafos, parse);
      && (r.None? <==> forall t :: t in trafos ==> parse(t.versionTag).None?)
      && (r.Some? ==> exists k: nat :: LastGreatest(trafos, k, CompareRevisions(parse)) && trafos[k] == r.value)
  {
    NewestIsGreatest(trafos, parse);
    CollectDistinct(trafos, IdOf);
  }
}
