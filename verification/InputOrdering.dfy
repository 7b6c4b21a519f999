/** Ordering of operator inputs: required inputs first, otherwise as before. */
module InputOrdering {
  import opened IOTypes
  import opened Sequences

  function OfKind<T>(kind: T -> InputType, wanted: InputType): T -> bool {
    (x: T) => kind(x) == wanted
  }

  function Order<T>(s: seq<T>, kind: T -> InputType): seq<T> {
    Filter(s, OfKind(kind, REQUIRED)) + Filter(s, OfKind(kind, OPTIONAL))
  }

  method OrderOperatorInputs<T>(inputs: seq<T>, kind: T -> InputType) returns (r: seq<T>)
    ensures r == Order(inputs, kind)
  {
    var required, optional := [], [];
    for i := 0 to |inputs|
      invariant required == Filter(inputs[..i], OfKind(kind, REQUIRED))
      invariant optional == Filter(inputs[..i], OfKind(kind, OPTIONAL))
    {
      assert inputs[..i + 1][..i] == inputs[..i];
      match kind(inputs[i]) {
        case REQUIRED => required := required + [inputs[i]];
        case OPTIONAL => optional := optional + [inputs[i]];
      }
    }
    assert inputs[..|inputs|] == inputs;
    return required + optional;
  }

  ghost predicate RequiredFirst<T>(s: seq<T>, kind: T -> InputType) {
    forall i, j :: 0 <= i < j < |s| && kind(s[j]).REQUIRED? ==> kind(s[i]).REQUIRED?
  }

  lemma OrderStep<T>(s: seq<T>, kind: T -> InputType)
    requires s != []
    ensures multiset(Order(s, kind)) == multiset(Order(s[..|s| - 1], kind)) + multiset{s[|s| - 1]}
  {
    var init, x := s[..|s| - 1], s[|s| - 1];
    var required, optional := Filter(init, OfKind(kind, REQUIRED)), Filter(init, OfKind(kind, OPTIONAL));
    OneMore(required, optional, x);
    assert optional + [] == optional;
  }

  lemma {:induction false} OrderPermutes<T>(s: seq<T>, kind: T -> InputType)
    ensures multiset(Order(s, kind)) == multiset(s)
  {
    if s != [] {
      OrderPermutes(s[..|s| - 1], kind);
      OrderStep(s, kind);
      LastOne(s);
    }
  }

  lemma LastOne<T>(s: seq<T>)
    requires s != []
    ensures multiset(s) == multiset(s[..|s| - 1]) + multiset{s[|s| - 1]}
  {
    assert s == s[..|s| - 1] + [s[|s| - 1]];
  }

  lemma OrderElements<T>(s: seq<T>, kind: T -> InputType)
    ensures forall x :: x in Order(s, kind) <==> x in s
  {
    OrderPermutes(s, kind);
    assert forall x :: x in Order(s, kind) <==> x in multiset(Order(s, kind));
    assert forall x :: x in s <==> x in multiset(s);
  }

  lemma OneMore<T>(a: seq<T>, b: seq<T>, x: T)
    ensures multiset((a + [x]) + b) == multiset(a + b) + multiset{x} == multiset(a + (b + [x]))
  {
  }

  /** Ordering is a permutation that puts the required inputs first and is stable: each of the two
      kinds keeps its order, so an ordered list is not changed. */
  lemma OrderCorrect<T>(s: seq<T>, kind: T -> InputType)
    ensures RequiredFirst(Order(s, kind), kind) && multiset(Order(s, kind)) == multiset(s)
    ensures Filter(Order(s, kind), OfKind(kind, REQUIRED)) == Filter(s, OfKind(kind, REQUIRED))
    ensures Filter(Order(s, kind), OfKind(kind, OPTIONAL)) == Filter(s, OfKind(kind, OPTIONAL))
    ensures Order(Order(s, kind), kind) == Order(s, kind)
  {
    hide Filter;
    var required, optional := Filter(s, OfKind(kind, REQUIRED)), Filter(s, OfKind(kind, OPTIONAL));
    FilterElements(s, OfKind(kind, REQUIRED));
    FilterElements(s, OfKind(kind, OPTIONAL));
    OrderPermutes(s, kind);
    FilterAppend(required, optional, OfKind(kind, REQUIRED));
    FilterAppend(required, optional, OfKind(kind, OPTIONAL));
    FilterAll(required, OfKind(kind, REQUIRED));
    FilterNone(required, OfKind(kind, OPTIONAL));
    FilterAll(optional, OfKind(kind, OPTIONAL));
    FilterNone(optional, OfKind(kind, REQUIRED));
  }

  /** The ordered elements by their places: required ones first, otherwise as before. */
  ghost predicate OrderedAt<T>(os: seq<T>, s: seq<T>, kind: T -> InputType, places: seq<nat>) {
    && |places| == |os| == |s| && (forall m :: 0 <= m < |os| ==> places[m] < |s| && os[m] == s[places[m]])
    && forall m, n :: 0 <= m < n < |os| ==>
         places[m] != places[n] && if kind(os[m]) == kind(os[n]) then places[m] < places[n] else kind(os[m]).REQUIRED?
  }

  /** The elements of one kind at their places. */
  ghost predicate KindAt<T>(xs: seq<T>, s: seq<T>, kind: T -> InputType, wanted: InputType, places: seq<nat>) {
    && |places| == |xs|
    && (forall m :: 0 <= m < |xs| ==> places[m] < |s| && xs[m] == s[places[m]] && kind(xs[m]) == wanted)
    && (forall m, n :: 0 <= m < n < |xs| ==> places[m] < places[n])
  }

  lemma FilterKindPlaces<T>(s: seq<T>, kind: T -> InputType, wanted: InputType) returns (places: seq<nat>)
    ensures KindAt(Filter(s, OfKind(kind, wanted)), s, kind, wanted, places)
  {
    places := FilterPlaces(s, OfKind(kind, wanted));
    FilterElements(s, OfKind(kind, wanted));
    hide Filter;
  }

  lemma KindsJoined<T>(a: seq<T>, b: seq<T>, s: seq<T>, kind: T -> InputType, p: seq<nat>, q: seq<nat>)
    requires KindAt(a, s, kind, REQUIRED, p) && KindAt(b, s, kind, OPTIONAL, q) && |a| + |b| == |s|
    ensures OrderedAt(a + b, s, kind, p + q)
  {
    var os, places := a + b, p + q;
    forall m, n | 0 <= m < n < |os|
      ensures places[m] != places[n] && if kind(os[m]) == kind(os[n]) then places[m] < places[n] else kind(os[m]).REQUIRED?
    {
      assert kind(os[m]) == (if m < |a| then REQUIRED else OPTIONAL) && kind(os[n]) == (if n < |a| then REQUIRED else OPTIONAL);
      assert os[m] == s[places[m]] && os[n] == s[places[n]];
    }
  }

  lemma OrderPlaces<T>(s: seq<T>, kind: T -> InputType) returns (places: seq<nat>)
    ensures OrderedAt(Order(s, kind), s, kind, places)
  {
    hide Filter, KindAt, OrderedAt;
    var p := FilterKindPlaces(s, kind, REQUIRED);
    var q := FilterKindPlaces(s, kind, OPTIONAL);
    OrderPermutes(s, kind);
    assert |multiset(Order(s, kind))| == |multiset(s)|;
    KindsJoined(Filter(s, OfKind(kind, REQUIRED)), Filter(s, OfKind(kind, OPTIONAL)), s, kind, p, q);
    places := p + q;
  }
}
