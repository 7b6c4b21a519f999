/** Loading the inputs of a workflow: wirings are grouped by adapter, every adapter is asked once for
    all its inputs, and the answers are merged. */
module AdapterBatching {
  import opened Wrappers
  import opened OrderedDict
  import opened Sequences

  type Name = int
  type Adapter = int
  type Source = int      // reference, type and filters
  type Value = int
  type Attributes = int

  datatype InputWiring = InputWiring(name: Name, adapter: Adapter, useDefault: bool, source: Source, attrs: Option<Attributes>)

  /** Adapters as seen from here, and how attributes are attached to a loaded object. */
  datatype Adapters = Adapters(load: (Adapter, map<Name, Source>) -> map<Name, Value>, attach: (Value, Attributes) -> Value)

  datatype Call = Call(adapter: Adapter, requests: map<Name, Source>)

  function NameOf(w: InputWiring): Name { w.name }

  function AskedOf(a: Adapter): InputWiring -> bool {
    (w: InputWiring) => !w.useDefault && w.adapter == a
  }

  function Requests(ws: seq<InputWiring>): map<Name, Source> {
    if ws == [] then map[] else Requests(ws[..|ws| - 1])[ws[|ws| - 1].name := ws[|ws| - 1].source]
  }

  datatype Group = Group(adapter: Adapter, wirings: seq<InputWiring>)

  function AdapterOf(g: Group): Adapter { g.adapter }

  /** Exactly the wirings for each adapter, in their order. */
  ghost predicate Grouped(groups: seq<Group>, ws: seq<InputWiring>) {
    && DistinctKeys(groups, AdapterOf)
    && (forall g :: g in groups ==> g.wirings == Filter(ws, AskedOf(g.adapter)) && g.wirings != [])
    && (forall w :: w in ws && !w.useDefault ==> exists g :: g in groups && g.adapter == w.adapter)
  }

  /** The groups come in the order in which their adapters are first asked for, at the given places. */
  ghost predicate InOrder(groups: seq<Group>, ws: seq<InputWiring>, places: seq<nat>) {
    && |places| == |groups| && (forall j, k :: 0 <= j < k < |places| ==> places[j] < places[k])
    && forall j :: 0 <= j < |places| ==> FirstAskedAt(groups[j].adapter, ws, places[j])
  }

  ghost predicate FirstAskedAt(a: Adapter, ws: seq<InputWiring>, place: nat) {
    && place < |ws| && ws[place].adapter == a && !ws[place].useDefault
    && forall i :: 0 <= i < place && ws[i].adapter == a ==> ws[i].useDefault
  }

  lemma FirstAskedLater(a: Adapter, ws: seq<InputWiring>, w: InputWiring, place: nat)
    requires FirstAskedAt(a, ws, place)
    ensures FirstAskedAt(a, ws + [w], place)
  {
    assert forall i :: 0 <= i <= place ==> (ws + [w])[i] == ws[i];
  }

  lemma FirstAskedNow(groups: seq<Group>, ws: seq<InputWiring>, w: InputWiring)
    requires Grouped(groups, ws) && !w.useDefault && forall g :: g in groups ==> g.adapter != w.adapter
    ensures FirstAskedAt(w.adapter, ws + [w], |ws|)
  {
    forall i | 0 <= i < |ws| && ws[i].adapter == w.adapter ensures ws[i].useDefault {
      assert ws[i] in ws;
    }
  }

  method GroupByAdapter(ws: seq<InputWiring>) returns (groups: seq<Group>, ghost places: seq<nat>)
    ensures Grouped(groups, ws) && InOrder(groups, ws, places)
  {
    groups, places := [], [];
    for i := 0 to |ws|
      invariant Grouped(groups, ws[..i]) && InOrder(groups, ws[..i], places)
    {
      assert ws[..i + 1] == ws[..i] + [ws[i]];
      if !ws[i].useDefault {
        ghost var before := groups;
        groups := Add(groups, ws[i], ws[..i]);
        places := NextPlaces(before, groups, ws[..i], ws[i], places);
      } else {
        SkipDefault(groups, ws[i], ws[..i]);
        SkippedPlaces(groups, ws[..i], ws[i], places);
      }
    }
    assert ws[..|ws|] == ws;
  }

  lemma FilterNext(ws: seq<InputWiring>, w: InputWiring, a: Adapter)
    ensures Filter(ws + [w], AskedOf(a)) == Filter(ws, AskedOf(a)) + if !w.useDefault && w.adapter == a then [w] else []
  {
    assert (ws + [w])[..|ws|] == ws;
  }

  lemma SkipDefault(groups: seq<Group>, w: InputWiring, ws: seq<InputWiring>)
    requires Grouped(groups, ws) && w.useDefault
    ensures Grouped(groups, ws + [w])
  {
    forall g | g in groups ensures g.wirings == Filter(ws + [w], AskedOf(g.adapter)) {
      FilterNext(ws, w, g.adapter);
    }
  }

  lemma NextPlaces(groups: seq<Group>, r: seq<Group>, ws: seq<InputWiring>, w: InputWiring, places: seq<nat>) returns (places': seq<nat>)
    requires InOrder(groups, ws, places) && Grouped(groups, ws) && !w.useDefault
    requires |r| >= |groups| && forall i :: 0 <= i < |groups| ==> r[i].adapter == groups[i].adapter
    requires if exists g :: g in groups && g.adapter == w.adapter then |r| == |groups| else |r| == |groups| + 1 && r[|groups|].adapter == w.adapter
    ensures InOrder(r, ws + [w], places')
  {
    hide InOrder, FirstAskedAt, Grouped;
    SkippedPlaces(groups, ws, w, places);
    places' := places;
    if exists g :: g in groups && g.adapter == w.adapter {
      SameAdapters(groups, r, ws + [w], places);
    } else {
      FirstAskedNow(groups, ws, w);
      PlacesBelow(groups, ws, places);
      places' := OnePlaceMore(groups, r, ws + [w], places, |ws|);
    }
  }

  lemma PlacesBelow(groups: seq<Group>, ws: seq<InputWiring>, places: seq<nat>)
    requires InOrder(groups, ws, places)
    ensures forall j :: 0 <= j < |places| ==> places[j] < |ws|
  {
  }

  lemma SameAdapters(groups: seq<Group>, r: seq<Group>, ws: seq<InputWiring>, places: seq<nat>)
    requires InOrder(groups, ws, places) && |r| == |groups| && forall i :: 0 <= i < |groups| ==> r[i].adapter == groups[i].adapter
    ensures InOrder(r, ws, places)
  {
    hide FirstAskedAt;
  }

  lemma OnePlaceMore(groups: seq<Group>, r: seq<Group>, ws: seq<InputWiring>, places: seq<nat>, n: nat) returns (places': seq<nat>)
    requires InOrder(groups, ws, places) && forall j :: 0 <= j < |places| ==> places[j] < n
    requires |r| == |groups| + 1 && forall i :: 0 <= i < |groups| ==> r[i].adapter == groups[i].adapter
    requires FirstAskedAt(r[|groups|].adapter, ws, n)
    ensures InOrder(r, ws, places')
  {
    hide FirstAskedAt;
    places' := places + [n];
  }

  lemma SkippedPlaces(groups: seq<Group>, ws: seq<InputWiring>, w: InputWiring, places: seq<nat>)
    requires InOrder(groups, ws, places)
    ensures InOrder(groups, ws + [w], places)
  {
    hide FirstAskedAt;
    forall j | 0 <= j < |places| ensures FirstAskedAt(groups[j].adapter, ws + [w], places[j]) {
      FirstAskedLater(groups[j].adapter, ws, w, places[j]);
    }
  }

  /** `wirings_by_adapter[w.adapter_id].append(w)` */
  method Add(groups: seq<Group>, w: InputWiring, ghost ws: seq<InputWiring>) returns (r: seq<Group>)
    requires Grouped(groups, ws) && !w.useDefault
    ensures Grouped(r, ws + [w])
    ensures |r| >= |groups| && forall i :: 0 <= i < |groups| ==> r[i].adapter == groups[i].adapter
    ensures if exists g :: g in groups && g.adapter == w.adapter then |r| == |groups| else |r| == |groups| + 1 && r[|groups|].adapter == w.adapter
  {
    var k := 0;
    while k < |groups| && groups[k].adapter != w.adapter
      invariant 0 <= k <= |groups| && forall j :: 0 <= j < k ==> groups[j].adapter != w.adapter
    {
      k := k + 1;
    }
    if k < |groups| {
      r := groups[k := Group(w.adapter, groups[k].wirings + [w])];
      assert r[k].adapter == w.adapter && r[k] in r;
    } else {
      NoneAsked(groups, ws, w.adapter);
      r := groups + [Group(w.adapter, [w])];
      assert r[|groups|].adapter == w.adapter && r[|groups|] in r;
    }
    GroupsExtended(groups, r, w, ws);
    GroupForEach(groups, r, w, ws);
  }

  lemma GroupsExtended(groups: seq<Group>, r: seq<Group>, w: InputWiring, ws: seq<InputWiring>)
    requires |groups| <= |r| <= |groups| + 1 && !w.useDefault
    requires forall i :: 0 <= i < |groups| ==> groups[i].wirings == Filter(ws, AskedOf(groups[i].adapter)) && groups[i].wirings != []
    requires forall i :: 0 <= i < |groups| ==> r[i] == if groups[i].adapter == w.adapter then Group(w.adapter, groups[i].wirings + [w]) else groups[i]
    requires |r| > |groups| ==> r[|groups|] == Group(w.adapter, [w]) && Filter(ws, AskedOf(w.adapter)) == []
    ensures forall i :: 0 <= i < |r| ==> r[i].wirings == Filter(ws + [w], AskedOf(r[i].adapter)) && r[i].wirings != []
  {
    hide Filter;
    forall i | 0 <= i < |r| ensures r[i].wirings == Filter(ws + [w], AskedOf(r[i].adapter)) && r[i].wirings != [] {
      FilterNext(ws, w, r[i].adapter);
    }
  }

  lemma GroupForEach(groups: seq<Group>, r: seq<Group>, w: InputWiring, ws: seq<InputWiring>)
    requires |groups| <= |r| && forall i :: 0 <= i < |groups| ==> r[i].adapter == groups[i].adapter
    requires forall u :: u in ws && !u.useDefault ==> exists g :: g in groups && g.adapter == u.adapter
    requires exists g :: g in r && g.adapter == w.adapter
    ensures forall u :: u in ws + [w] && !u.useDefault ==> exists g :: g in r && g.adapter == u.adapter
  {
    forall u | u in ws && !u.useDefault ensures exists g :: g in r && g.adapter == u.adapter {
      var g :| g in groups && g.adapter == u.adapter;
      var i :| 0 <= i < |groups| && groups[i] == g;
      assert r[i] in r && r[i].adapter == u.adapter;
    }
  }

  lemma NoneAsked(groups: seq<Group>, ws: seq<InputWiring>, a: Adapter)
    requires Grouped(groups, ws) && forall g :: g in groups ==> g.adapter != a
    ensures Filter(ws, AskedOf(a)) == []
  {
    forall w | w in ws ensures !AskedOf(a)(w) {
    }
    FilterNone(ws, AskedOf(a));
  }

  // ----- one adapter -----

  function Annotated(v: Value, w: InputWiring, adapters: Adapters): Value {
    if w.attrs.None? then v else adapters.attach(v, w.attrs.value)
  }

  /** What was loaded, with the attributes of the wirings attached to the objects loaded for them. */
  function Attached(loaded: map<Name, Value>, ws: seq<InputWiring>, adapters: Adapters): (r: map<Name, Value>)
    ensures r.Keys == loaded.Keys
  {
    if ws == [] then loaded
    else
      var r, w := Attached(loaded, ws[..|ws| - 1], adapters), ws[|ws| - 1];
      if w.name in r then r[w.name := Annotated(r[w.name], w, adapters)] else r
  }

  method AttachAttributes(loaded: map<Name, Value>, ws: seq<InputWiring>, adapters: Adapters) returns (r: map<Name, Value>)
    ensures r == Attached(loaded, ws, adapters)
  {
    r := loaded;
    for i := 0 to |ws|
      invariant r == Attached(loaded, ws[..i], adapters)
    {
      assert ws[..i + 1][..i] == ws[..i];
      if ws[i].attrs.Some? && ws[i].name in r {
        r := r[ws[i].name := adapters.attach(r[ws[i].name], ws[i].attrs.value)];
      }
    }
    assert ws[..|ws|] == ws;
  }

  lemma {:induction false} AttachedAt(loaded: map<Name, Value>, ws: seq<InputWiring>, adapters: Adapters, w: InputWiring)
    requires DistinctKeys(ws, NameOf) && w.name in loaded
    ensures w in ws ==> Attached(loaded, ws, adapters)[w.name] == Annotated(loaded[w.name], w, adapters)
    ensures (forall u :: u in ws ==> u.name != w.name) ==> Attached(loaded, ws, adapters)[w.name] == loaded[w.name]
  {
    hide Annotated;
    if ws != [] {
      var init, u := ws[..|ws| - 1], ws[|ws| - 1];
      assert ws == init + [u];
      AttachedAt(loaded, init, adapters, w);
      assert forall v :: v in init ==> v.name != u.name;
    }
  }

  // ----- all adapters -----

  function AnswerOf(g: Group, adapters: Adapters): map<Name, Value> {
    Attached(adapters.load(g.adapter, Requests(g.wirings)), g.wirings, adapters)
  }

  /** The answers of the adapters merged, later ones over earlier ones. */
  function Merged(groups: seq<Group>, adapters: Adapters): map<Name, Value> {
    if groups == [] then map[] else Merged(groups[..|groups| - 1], adapters) + AnswerOf(groups[|groups| - 1], adapters)
  }

  /** For any adapters a name gets what the last adapter to answer it says. */
  lemma {:induction false} MergedLast(groups: seq<Group>, adapters: Adapters, n: Name)
    ensures n in Merged(groups, adapters) <==> exists j :: 0 <= j < |groups| && n in AnswerOf(groups[j], adapters)
    ensures forall j :: 0 <= j < |groups| && n in AnswerOf(groups[j], adapters) && (forall k :: j < k < |groups| ==> n !in AnswerOf(groups[k], adapters)) ==>
      Merged(groups, adapters)[n] == AnswerOf(groups[j], adapters)[n]
  {
    hide AnswerOf;
    if groups != [] {
      var init, g := groups[..|groups| - 1], groups[|groups| - 1];
      MergedLast(init, adapters, n);
      assert groups == init + [g];
      forall j | 0 <= j < |groups| && n in AnswerOf(groups[j], adapters) && (forall k :: j < k < |groups| ==> n !in AnswerOf(groups[k], adapters))
        ensures n in Merged(groups, adapters) && Merged(groups, adapters)[n] == AnswerOf(groups[j], adapters)[n]
      {
        if j < |init| {
          assert init[j] == groups[j] && forall k :: j < k < |init| ==> init[k] == groups[k];
          assert n !in AnswerOf(groups[|init|], adapters);
        }
      }
    }
  }

  /** Every adapter with wirings is called once, with the requests of just its wirings. */
  ghost predicate CalledOnce(calls: seq<Call>, ws: seq<InputWiring>) {
    && (forall i, j :: 0 <= i < j < |calls| ==> calls[i].adapter != calls[j].adapter)
    && (forall c :: c in calls ==> c.requests == Requests(Filter(ws, AskedOf(c.adapter))) && c.requests != map[])
    && (forall w :: w in ws && !w.useDefault ==> exists c :: c in calls && c.adapter == w.adapter)
  }

  /** For any adapters: each is called once, and the answers are merged in the order of the calls. */
  method ResolveAndLoadData(ws: seq<InputWiring>, adapters: Adapters) returns (data: map<Name, Value>, calls: seq<Call>, ghost groups: seq<Group>)
    requires DistinctKeys(ws, NameOf)
    ensures CalledOnce(calls, ws)
    ensures Grouped(groups, ws) && data == Merged(groups, adapters)
    ensures |calls| == |groups| && forall j :: 0 <= j < |calls| ==> calls[j].adapter == groups[j].adapter
    ensures exists places :: InOrder(groups, ws, places)
  {
    hide Filter, Grouped, Attached, Requests, CalledOnce, InOrder;
    var batches;
    ghost var places;
    batches, places := GroupByAdapter(ws);
    data, calls := map[], [];
    for i := 0 to |batches|
      invariant data == Merged(batches[..i], adapters)
      invariant |calls| == i && forall j :: 0 <= j < i ==> calls[j] == Call(batches[j].adapter, Requests(batches[j].wirings))
    {
      assert batches[..i + 1][..i] == batches[..i];
      var requests := Requests(batches[i].wirings);
      calls := calls + [Call(batches[i].adapter, requests)];
      var answer := adapters.load(batches[i].adapter, requests);
      answer := AttachAttributes(answer, batches[i].wirings, adapters);
      data := data + answer;
    }
    assert batches[..|batches|] == batches;
    groups := batches;
    GroupsOf(groups, ws);
    GroupsCalled(groups, calls, ws);
  }

  lemma {:induction false} RequestsOf(ws: seq<InputWiring>)
    requires DistinctKeys(ws, NameOf)
    ensures forall w :: w in ws ==> w.name in Requests(ws) && Requests(ws)[w.name] == w.source
    ensures forall n :: n in Requests(ws) ==> exists w :: w in ws && w.name == n
  {
    if ws != [] {
      var init, w := ws[..|ws| - 1], ws[|ws| - 1];
      RequestsOf(init);
      assert ws == init + [w];
      assert forall v :: v in init ==> v.name != w.name;
    }
  }

  // ----- adapters that answer each request by itself -----

  ghost predicate Pointwise(adapters: Adapters, one: (Adapter, Source) -> Value) {
    forall a: Adapter, rs: map<Name, Source> {:trigger adapters.load(a, rs)} ::
      adapters.load(a, rs).Keys == rs.Keys && forall n :: n in rs ==> adapters.load(a, rs)[n] == one(a, rs[n])
  }

  ghost predicate IsBatch(g: Group) {
    DistinctKeys(g.wirings, NameOf) && forall w :: w in g.wirings ==> w.adapter == g.adapter
  }

  ghost predicate LoadedBy(loaded: map<Name, Value>, g: Group, adapters: Adapters, one: (Adapter, Source) -> Value) {
    && (forall w :: w in g.wirings ==> w.name in loaded && loaded[w.name] == Annotated(one(w.adapter, w.source), w, adapters))
    && (forall k :: k in loaded ==> exists w :: w in g.wirings && w.name == k)
  }

  lemma AnswerIsPointwise(g: Group, adapters: Adapters, one: (Adapter, Source) -> Value)
    requires IsBatch(g) && Pointwise(adapters, one)
    ensures LoadedBy(AnswerOf(g, adapters), g, adapters, one)
  {
    RequestsOf(g.wirings);
    var answer := adapters.load(g.adapter, Requests(g.wirings));
    forall w | w in g.wirings ensures AnswerOf(g, adapters)[w.name] == Annotated(one(w.adapter, w.source), w, adapters) {
      AttachedAt(answer, g.wirings, adapters, w);
    }
  }

  /** The part of the result that comes from the first n groups. */
  ghost predicate LoadedFrom(data: map<Name, Value>, groups: seq<Group>, n: nat, adapters: Adapters, one: (Adapter, Source) -> Value)
    requires n <= |groups|
  {
    && (forall i, w {:trigger w in groups[i].wirings} :: 0 <= i < n && w in groups[i].wirings ==>
          w.name in data && data[w.name] == Annotated(one(w.adapter, w.source), w, adapters))
    && (forall k :: k in data ==> exists i, w :: 0 <= i < n && w in groups[i].wirings && w.name == k)
  }

  lemma {:induction false} MergedIsLoaded(groups: seq<Group>, ws: seq<InputWiring>, n: nat, adapters: Adapters, one: (Adapter, Source) -> Value)
    requires WellGrouped(groups, ws) && n <= |groups| && Pointwise(adapters, one)
    ensures LoadedFrom(Merged(groups[..n], adapters), groups, n, adapters, one)
  {
    hide WellGrouped, IsBatch, LoadedBy, LoadedFrom, Pointwise;
    if n == 0 {
      NothingLoaded(groups, adapters, one);
    } else {
      MergedIsLoaded(groups, ws, n - 1, adapters, one);
      assert groups[..n][..n - 1] == groups[..n - 1];
      BatchAt(groups, ws, n - 1);
      AnswerIsPointwise(groups[n - 1], adapters, one);
      Merge(Merged(groups[..n - 1], adapters), AnswerOf(groups[n - 1], adapters), groups, ws, n - 1, adapters, one);
    }
  }

  /** Batching refines loading one by one: every input not left to its default gets what its own adapter
      loads for its own source, with its attributes, whatever the grouping; nothing else is loaded. */
  lemma BatchingRefines(groups: seq<Group>, ws: seq<InputWiring>, adapters: Adapters, one: (Adapter, Source) -> Value)
    requires DistinctKeys(ws, NameOf) && Grouped(groups, ws) && Pointwise(adapters, one)
    ensures var data := Merged(groups, adapters);
      && (forall n :: n in data <==> exists w :: w in ws && !w.useDefault && w.name == n)
      && (forall w :: w in ws && !w.useDefault ==>
            var v := one(w.adapter, w.source);
            data[w.name] == if w.attrs.None? then v else adapters.attach(v, w.attrs.value))
  {
    hide Grouped, WellGrouped, LoadedFrom, Merged, Pointwise;
    GroupsOf(groups, ws);
    MergedIsLoaded(groups, ws, |groups|, adapters, one);
    assert groups[..|groups|] == groups;
    Collected(Merged(groups, adapters), groups, ws, adapters, one);
  }

  /** Facts about each group. */
  ghost predicate WellGrouped(groups: seq<Group>, ws: seq<InputWiring>) {
    && (forall i :: 0 <= i < |groups| ==> IsBatch(groups[i]) && groups[i].wirings != [])
    && (forall i, w {:trigger w in groups[i].wirings} :: 0 <= i < |groups| ==> (w in groups[i].wirings <==> w in ws && !w.useDefault && w.adapter == groups[i].adapter))
    && (forall w :: w in ws && !w.useDefault ==> exists i :: 0 <= i < |groups| && w in groups[i].wirings)
    && (forall i, j, u, w {:trigger u in groups[i].wirings, w in groups[j].wirings} ::
          0 <= i < |groups| && 0 <= j < |groups| && u in groups[i].wirings && w in groups[j].wirings && u.name == w.name ==> u == w && i == j)
  }

  lemma GroupsOf(groups: seq<Group>, ws: seq<InputWiring>)
    requires Grouped(groups, ws) && DistinctKeys(ws, NameOf)
    ensures WellGrouped(groups, ws)
  {
    forall i | 0 <= i < |groups|
      ensures IsBatch(groups[i]) && groups[i].wirings != []
      ensures forall w :: w in groups[i].wirings <==> w in ws && !w.useDefault && w.adapter == groups[i].adapter
    {
      assert groups[i] in groups;
      FilterKeys(ws, AskedOf(groups[i].adapter), NameOf);
      FilterElements(ws, AskedOf(groups[i].adapter));
    }
    forall w | w in ws && !w.useDefault ensures exists i :: 0 <= i < |groups| && w in groups[i].wirings {
      var g :| g in groups && g.adapter == w.adapter;
      var i :| 0 <= i < |groups| && groups[i] == g;
      assert w in groups[i].wirings;
    }
    forall i, j, u, w | 0 <= i < |groups| && 0 <= j < |groups| && u in groups[i].wirings && w in groups[j].wirings && u.name == w.name
      ensures u == w && i == j
    {
      FindUnique(ws, NameOf, u);
      FindUnique(ws, NameOf, w);
      assert AdapterOf(groups[i]) == AdapterOf(groups[j]);
    }
  }

  lemma BatchAt(groups: seq<Group>, ws: seq<InputWiring>, i: nat)
    requires WellGrouped(groups, ws) && i < |groups|
    ensures IsBatch(groups[i])
  {
  }

  lemma NothingLoaded(groups: seq<Group>, adapters: Adapters, one: (Adapter, Source) -> Value)
    ensures LoadedFrom(map[], groups, 0, adapters, one)
  {
  }

  lemma Merge(data: map<Name, Value>, loaded: map<Name, Value>, groups: seq<Group>, ws: seq<InputWiring>, n: nat, adapters: Adapters, one: (Adapter, Source) -> Value)
    requires n < |groups| && LoadedFrom(data, groups, n, adapters, one)
    requires LoadedBy(loaded, groups[n], adapters, one) && WellGrouped(groups, ws)
    ensures LoadedFrom(data + loaded, groups, n + 1, adapters, one)
  {
    var all := data + loaded;
    forall i, w | 0 <= i < n + 1 && w in groups[i].wirings
      ensures w.name in all && all[w.name] == Annotated(one(w.adapter, w.source), w, adapters)
    {
      if i < n {
        assert w.name !in loaded;
      }
    }
    forall k | k in all ensures exists i, w :: 0 <= i < n + 1 && w in groups[i].wirings && w.name == k {
      if k in loaded {
        var w :| w in groups[n].wirings && w.name == k;
      } else {
        var i, w :| 0 <= i < n && w in groups[i].wirings && w.name == k;
      }
    }
  }

  lemma GroupsCalled(groups: seq<Group>, calls: seq<Call>, ws: seq<InputWiring>)
    requires Grouped(groups, ws) && WellGrouped(groups, ws)
    requires |calls| == |groups| && forall j :: 0 <= j < |groups| ==> calls[j] == Call(groups[j].adapter, Requests(groups[j].wirings))
    ensures CalledOnce(calls, ws)
  {
    forall i, j | 0 <= i < j < |calls| ensures calls[i].adapter != calls[j].adapter {
      assert AdapterOf(groups[i]) != AdapterOf(groups[j]);
    }
    forall j | 0 <= j < |calls| ensures calls[j].requests == Requests(Filter(ws, AskedOf(calls[j].adapter))) && calls[j].requests != map[] {
      assert groups[j] in groups;
      RequestsOf(groups[j].wirings);
      assert groups[j].wirings[0].name in calls[j].requests;
    }
    forall w | w in ws && !w.useDefault ensures exists c :: c in calls && c.adapter == w.adapter {
      var i :| 0 <= i < |groups| && w in groups[i].wirings;
      assert calls[i] in calls;
    }
  }

  lemma Collected(data: map<Name, Value>, groups: seq<Group>, ws: seq<InputWiring>, adapters: Adapters, one: (Adapter, Source) -> Value)
    requires WellGrouped(groups, ws) && LoadedFrom(data, groups, |groups|, adapters, one)
    ensures forall n :: n in data <==> exists w :: w in ws && !w.useDefault && w.name == n
    ensures forall w :: w in ws && !w.useDefault ==> data[w.name] == Annotated(one(w.adapter, w.source), w, adapters)
  {
    forall w | w in ws && !w.useDefault ensures w.name in data && data[w.name] == Annotated(one(w.adapter, w.source), w, adapters) {
      var i :| 0 <= i < |groups| && w in groups[i].wirings;
    }
    forall n | n in data ensures exists w :: w in ws && !w.useDefault && w.name == n {
      var i, w :| 0 <= i < |groups| && w in groups[i].wirings && w.name == n;
    }
  }
}
