/** Moving an operator to a newer revision: its inputs and outputs are reconciled with those of the
    revision. Inputs and outputs follow the same rules, except that outputs are never optional. */
module InterfaceReconciliation {
  import opened Wrappers
  import opened IOTypes
  import opened InputOrdering
  import opened OrderedDict
  import opened Sequences

  /** An input or output of an operator. */
  datatype Connector = Connector(id: Uuid, name: Option<Name>, dataType: DataType, slot: Slot, exposed: bool)

  datatype Wiring = Wiring(name: Name, adapter: int)

  /** The fields of an operator at some moment. */
  datatype OperatorView = OperatorView(id: Uuid, transformationId: Uuid, revisionGroupId: Uuid, isWorkflow: bool, state: State, versionTag: int, inputs: seq<Connector>, outputs: seq<Connector>, position: Position)

  function NameOf(c: Connector): Option<Name> { c.name }

  function KindOfConnector(c: Connector): InputType { KindOf(c.slot) }

  function EndpointName(e: Endpoint): Option<Name> { e.name }

  function ContentId(c: Content): Uuid { c.id }

  predicate Has(cs: seq<Connector>, name: Option<Name>) {
    Find(cs, NameOf, name).Some?
  }

  // ----- the interface of an operator -----

  /** Values of the old type still fit. */
  predicate Fits(t: DataType, previous: DataType) {
    t == previous || t == ANY
  }

  /** The old connector adapted to the new interface, unless it cannot be kept. */
  function Revise(ts: seq<Endpoint>, c: Connector): Option<Connector> {
    if c.name.None? then None
    else
      match Find(ts, EndpointName, c.name)
      case None => None
      case Some(t) =>
        if !Fits(t.dataType, c.dataType) then None
        else if KindOf(t.slot) == KindOf(c.slot) then Some(c.(dataType := t.dataType))
        else Some(c.(dataType := t.dataType, slot := t.slot, exposed := true))
  }

  function Revised(ts: seq<Endpoint>, cs: seq<Connector>): seq<Connector> {
    if cs == [] then []
    else
      Revised(ts, cs[..|cs| - 1]) +
      match Revise(ts, cs[|cs| - 1]) case None => [] case Some(c) => [c]
  }

  function Kept(ts: seq<Endpoint>, cs: seq<Connector>): seq<Connector> {
    Collect(Revised(ts, cs), NameOf)
  }

  datatype Additions = Additions(connectors: seq<Connector>, contents: seq<Content>, nextId: Uuid)

  /** New connectors for what the new interface has beyond the kept ones. Unless optional, each also
      becomes an unnamed input or output of the workflow. Ids are taken from firstId on. */
  function Add(ts: seq<Endpoint>, kept: seq<Connector>, operatorId: Uuid, firstId: Uuid): Additions {
    if ts == [] then Additions([], [], firstId)
    else
      AddOne(Add(ts[..|ts| - 1], kept, operatorId, firstId), ts[|ts| - 1], kept, operatorId)
  }

  function AddOne(a: Additions, t: Endpoint, kept: seq<Connector>, operatorId: Uuid): Additions {
    if t.name.None? || Has(kept, t.name) then a
    else
      var optional := KindOf(t.slot).OPTIONAL?;
      var connectors := Insert(a.connectors, Connector(a.nextId, t.name, t.dataType, t.slot, !optional), NameOf);
      if optional then Additions(connectors, a.contents, a.nextId + 1)
      else Additions(connectors, a.contents + [Content(a.nextId + 1, None, t.dataType, t.slot, operatorId, a.nextId, t.name, ORIGIN)], a.nextId + 2)
  }

  /** The connectors are exactly those of the interface: one for each of its names, with the type and
      kind stated there. */
  ghost predicate Instantiates(cs: seq<Connector>, ts: seq<Endpoint>) {
    && DistinctKeys(cs, NameOf)
    && (forall c :: c in cs ==> Conforms(c, ts))
    && (forall t :: t in ts && t.name.Some? ==> Has(cs, t.name))
  }

  ghost predicate Conforms(c: Connector, ts: seq<Endpoint>) {
    && c.name.Some? && Find(ts, EndpointName, c.name).Some?
    && var t := Find(ts, EndpointName, c.name).value;
       c.dataType == t.dataType && KindOf(c.slot) == KindOf(t.slot)
  }

  lemma {:induction false} RevisedElements(ts: seq<Endpoint>, cs: seq<Connector>)
    ensures forall r :: r in Revised(ts, cs) ==> exists c :: c in cs && Revise(ts, c) == Some(r)
    ensures forall c :: c in cs && Revise(ts, c).Some? ==> Revise(ts, c).value in Revised(ts, cs)
  {
    if cs != [] {
      RevisedElements(ts, cs[..|cs| - 1]);
      assert cs == cs[..|cs| - 1] + [cs[|cs| - 1]];
    }
  }

  /** Exactly the old connectors that fit are kept, with their ids. */
  lemma KeptElements(ts: seq<Endpoint>, cs: seq<Connector>)
    ensures DistinctKeys(Kept(ts, cs), NameOf)
    ensures forall r :: r in Kept(ts, cs) ==> Conforms(r, ts) && exists c :: c in cs && Revise(ts, c) == Some(r)
    ensures forall c :: c in cs && Revise(ts, c).Some? ==> Has(Kept(ts, cs), c.name)
  {
    var rs := Revised(ts, cs);
    RevisedElements(ts, cs);
    CollectElements(rs, NameOf);
    forall r | r in Kept(ts, cs) ensures Conforms(r, ts) && exists c :: c in cs && Revise(ts, c) == Some(r) {
      assert r in rs;
    }
    forall c | c in cs && Revise(ts, c).Some? ensures Has(Kept(ts, cs), c.name) {
      assert Revise(ts, c).value in rs;
    }
  }

  /** What Add promises about its connectors. */
  ghost predicate Added(a: Additions, ts: seq<Endpoint>, kept: seq<Connector>, firstId: Uuid) {
    && DistinctKeys(a.connectors, NameOf) && firstId <= a.nextId
    && (forall c :: c in a.connectors ==> firstId <= c.id < a.nextId && IsNew(c, ts, kept))
    && (forall t :: t in ts && t.name.Some? && !Has(kept, t.name) ==> Has(a.connectors, t.name))
  }

  /** Made from the interface as it stands there; optional ones are not exposed. */
  ghost predicate IsNew(c: Connector, ts: seq<Endpoint>, kept: seq<Connector>) {
    && c.name.Some? && !Has(kept, c.name) && Find(ts, EndpointName, c.name).Some?
    && var t := Find(ts, EndpointName, c.name).value;
       c.dataType == t.dataType && c.slot == t.slot && (c.exposed <==> KindOf(t.slot).REQUIRED?)
  }

  lemma {:induction false} AddConnectors(ts: seq<Endpoint>, kept: seq<Connector>, operatorId: Uuid, firstId: Uuid)
    ensures Added(Add(ts, kept, operatorId, firstId), ts, kept, firstId)
  {
    if ts != [] {
      var init, t := ts[..|ts| - 1], ts[|ts| - 1];
      var a := Add(init, kept, operatorId, firstId);
      AddConnectors(init, kept, operatorId, firstId);
      AddOneConnector(a, init, t, kept, operatorId, firstId);
      assert ts == init + [t];
    }
  }

  lemma AddOneConnector(a: Additions, init: seq<Endpoint>, t: Endpoint, kept: seq<Connector>, operatorId: Uuid, firstId: Uuid)
    requires Added(a, init, kept, firstId)
    ensures Added(AddOne(a, t, kept, operatorId), init + [t], kept, firstId)
  {
    var ts := init + [t];
    assert ts[..|init|] == init;
    var a' := AddOne(a, t, kept, operatorId);
    if t.name.Some? && !Has(kept, t.name) {
      var c := Connector(a.nextId, t.name, t.dataType, t.slot, KindOf(t.slot).REQUIRED?);
      InsertElements(a.connectors, c, NameOf);
      assert a'.connectors == Insert(a.connectors, c, NameOf);
      forall d | d in a'.connectors ensures firstId <= d.id < a'.nextId && IsNew(d, ts, kept) {
        if d != c {
          assert IsNew(d, init, kept);
        }
      }
      forall u | u in ts && u.name.Some? && !Has(kept, u.name) ensures Has(a'.connectors, u.name) {
        if u.name != t.name {
          assert Has(a.connectors, u.name);
          assert Find(a.connectors, NameOf, u.name).value in a'.connectors;
        }
      }
    }
  }

  /** Kept and added connectors together are an exact instance of the new interface. */
  lemma ReconciledInstantiates(ts: seq<Endpoint>, cs: seq<Connector>, operatorId: Uuid, firstId: Uuid)
    ensures Instantiates(Kept(ts, cs) + Add(ts, Kept(ts, cs), operatorId, firstId).connectors, ts)
  {
    var kept := Kept(ts, cs);
    var added := Add(ts, kept, operatorId, firstId).connectors;
    var all := kept + added;
    KeptElements(ts, cs);
    AddConnectors(ts, kept, operatorId, firstId);
    forall c | c in all ensures Conforms(c, ts) {
      if c in added {
        assert IsNew(c, ts, kept);
      }
    }
    forall i, j | 0 <= i < j < |all| ensures all[i].name != all[j].name {
      if i < |kept| <= j {
        assert added[j - |kept|] in added;
      }
    }
    forall t | t in ts && t.name.Some? ensures Has(all, t.name) {
      if Has(kept, t.name) {
        assert Find(kept, NameOf, t.name).value in all;
      } else {
        assert Find(added, NameOf, t.name).value in all;
      }
    }
  }

  lemma OrderInstantiates(cs: seq<Connector>, ts: seq<Endpoint>)
    requires Instantiates(cs, ts)
    ensures Instantiates(Order(cs, KindOfConnector), ts)
  {
    var os := Order(cs, KindOfConnector);
    OrderElements(cs, KindOfConnector);
    OrderDistinct(cs, KindOfConnector, NameOf);
    forall t | t in ts && t.name.Some? ensures Has(os, t.name) {
      assert Find(cs, NameOf, t.name).value in os;
    }
  }

  lemma OrderDistinct<T, K>(s: seq<T>, kind: T -> InputType, key: T -> K)
    requires DistinctKeys(s, key)
    ensures DistinctKeys(Order(s, kind), key)
  {
    var required, optional := Filter(s, OfKind(kind, REQUIRED)), Filter(s, OfKind(kind, OPTIONAL));
    FilterKeys(s, OfKind(kind, REQUIRED), key);
    FilterKeys(s, OfKind(kind, OPTIONAL), key);
    FilterElements(s, OfKind(kind, REQUIRED));
    FilterElements(s, OfKind(kind, OPTIONAL));
    DistinctJoined(required, optional, s, key);
  }

  /** Elements of both lists, all taken from one list with distinct keys, have distinct keys if the lists
      have no element in common. */
  lemma DistinctJoined<T, K>(a: seq<T>, b: seq<T>, s: seq<T>, key: T -> K)
    requires DistinctKeys(s, key) && DistinctKeys(a, key) && DistinctKeys(b, key)
    requires forall x :: x in a ==> x in s && x !in b
    requires forall y :: y in b ==> y in s
    ensures DistinctKeys(a + b, key)
  {
    forall i, j | 0 <= i < j < |a + b| ensures key((a + b)[i]) != key((a + b)[j]) {
      if i < |a| <= j {
        var x, y := a[i], b[j - |a|];
        assert x in a && y in b && x != y;
        var m, n :| 0 <= m < |s| && 0 <= n < |s| && s[m] == x && s[n] == y;
      }
    }
  }

  // ----- the upgraded operator -----

  function AddedInputs(v: OperatorView, t: Trafo, firstId: Uuid): Additions {
    Add(t.inputs, Kept(t.inputs, v.inputs), v.id, firstId)
  }

  function AddedOutputs(v: OperatorView, t: Trafo, firstId: Uuid): Additions {
    Add(t.outputs, Kept(t.outputs, v.outputs), v.id, AddedInputs(v, t, firstId).nextId)
  }

  function Upgraded(v: OperatorView, t: Trafo, firstId: Uuid): OperatorView {
    OperatorView(v.id, t.id, t.revisionGroupId, t.isWorkflow, t.state, t.versionTag,
      Order(Kept(t.inputs, v.inputs) + AddedInputs(v, t, firstId).connectors, KindOfConnector),
      Kept(t.outputs, v.outputs) + AddedOutputs(v, t, firstId).connectors,
      v.position)
  }

  lemma UpgradedId(v: OperatorView, t: Trafo, firstId: Uuid)
    ensures Upgraded(v, t, firstId).id == v.id && Upgraded(v, t, firstId).position == v.position
  {
  }

  ghost predicate InstanceOf(v: OperatorView, t: Trafo) {
    && v.transformationId == t.id && v.revisionGroupId == t.revisionGroupId && v.isWorkflow == t.isWorkflow
    && v.state == t.state && v.versionTag == t.versionTag
    && Instantiates(v.inputs, t.inputs) && RequiredFirst(v.inputs, KindOfConnector)
    && Instantiates(v.outputs, t.outputs)
  }

  /** An upgraded operator is an exact instance of the new revision. */
  lemma UpgradedIsInstance(v: OperatorView, t: Trafo, firstId: Uuid)
    ensures InstanceOf(Upgraded(v, t, firstId), t)
  {
    ReconciledInstantiates(t.inputs, v.inputs, v.id, firstId);
    ReconciledInstantiates(t.outputs, v.outputs, v.id, AddedInputs(v, t, firstId).nextId);
    OrderInstantiates(Kept(t.inputs, v.inputs) + AddedInputs(v, t, firstId).connectors, t.inputs);
    OrderCorrect(Kept(t.inputs, v.inputs) + AddedInputs(v, t, firstId).connectors, KindOfConnector);
  }

  // ----- the connectors of an upgraded operator, from the old ones and the revision alone -----

  /** An old connector can stay for an endpoint of its name that has its type or takes any. */
  ghost predicate CanStay(o: Connector, e: Endpoint) {
    o.name.Some? && o.name == e.name && (e.dataType == o.dataType || e.dataType.ANY?)
  }

  ghost predicate LastStaying(cs: seq<Connector>, i: nat, e: Endpoint) {
    i < |cs| && CanStay(cs[i], e) && forall j :: i < j < |cs| ==> !CanStay(cs[j], e)
  }

  /** The old connector with the new type. It is exposed if it changed between required and optional, and
      then has the new default value. */
  ghost predicate Continues(c: Connector, o: Connector, e: Endpoint) {
    && c.id == o.id && c.name == o.name && c.dataType == e.dataType
    && if KindOf(e.slot) == KindOf(o.slot) then c.slot == o.slot && c.exposed == o.exposed else c.slot == e.slot && c.exposed
  }

  /** A connector of its own, hidden if optional. */
  ghost predicate Brand(c: Connector, e: Endpoint, firstId: Uuid) {
    c.id >= firstId && c.name == e.name && c.dataType == e.dataType && c.slot == e.slot && (c.exposed <==> KindOf(e.slot).REQUIRED?)
  }

  /** The connector for the last endpoint of its name continues the last old one that can stay; only if
      there is none it is new. */
  ghost predicate ConnectorFor(c: Connector, ts: seq<Endpoint>, j: nat, cs: seq<Connector>, firstId: Uuid) {
    && IsLast(ts, EndpointName, j) && c.name.Some? && c.name == ts[j].name
    && ((exists i: nat :: LastStaying(cs, i, ts[j]) && Continues(c, cs[i], ts[j]))
        || (Brand(c, ts[j], firstId) && forall i :: 0 <= i < |cs| ==> !CanStay(cs[i], ts[j])))
  }

  /** One connector for each name of the revision, and no other. */
  ghost predicate ConnectorsFor(all: seq<Connector>, ts: seq<Endpoint>, cs: seq<Connector>, firstId: Uuid) {
    && (forall i, j :: 0 <= i < j < |all| ==> all[i].name != all[j].name)
    && (forall e :: e in ts && e.name.Some? ==> exists c :: c in all && c.name == e.name)
    && (forall c :: c in all ==> exists j: nat :: ConnectorFor(c, ts, j, cs, firstId))
  }

  lemma ReviseExact(ts: seq<Endpoint>, o: Connector, j: nat)
    requires IsLast(ts, EndpointName, j) && ts[j].name.Some? && o.name == ts[j].name
    ensures Revise(ts, o).Some? <==> CanStay(o, ts[j])
    ensures Revise(ts, o).Some? ==> Continues(Revise(ts, o).value, o, ts[j])
  {
    FindLast(ts, EndpointName, o.name);
  }

  /** Some old connector stays, and this is what became of it; or none does. */
  ghost predicate Staying(r: Option<Connector>, cs: seq<Connector>, e: Endpoint) {
    if r.None? then forall i :: 0 <= i < |cs| ==> !CanStay(cs[i], e)
    else exists i: nat :: LastStaying(cs, i, e) && Continues(r.value, cs[i], e)
  }

  lemma StayingNext(r: Option<Connector>, cs: seq<Connector>, e: Endpoint)
    requires cs != [] && Staying(r, cs[..|cs| - 1], e) && !CanStay(cs[|cs| - 1], e)
    ensures Staying(r, cs, e)
  {
    hide Continues, CanStay;
    var n := |cs| - 1;
    if r.Some? {
      var i: nat :| LastStaying(cs[..n], i, e) && Continues(r.value, cs[..n][i], e);
      assert LastStaying(cs, i, e) && cs[..n][i] == cs[i];
    } else {
      forall i | 0 <= i < |cs| ensures !CanStay(cs[i], e) {
        assert i < n ==> cs[..n][i] == cs[i];
      }
    }
  }

  lemma StayingLast(r: Connector, cs: seq<Connector>, e: Endpoint)
    requires cs != [] && CanStay(cs[|cs| - 1], e) && Continues(r, cs[|cs| - 1], e)
    ensures Staying(Some(r), cs, e)
  {
    hide Continues, CanStay;
    assert LastStaying(cs, |cs| - 1, e);
  }

  lemma {:induction false} RevisedFind(ts: seq<Endpoint>, cs: seq<Connector>, j: nat)
    requires IsLast(ts, EndpointName, j) && ts[j].name.Some?
    ensures Staying(Find(Revised(ts, cs), NameOf, ts[j].name), cs, ts[j])
  {
    hide Continues, CanStay;
    if cs != [] {
      hide Revised, Find, Staying;
      RevisedFind(ts, cs[..|cs| - 1], j);
      RevisedLast(ts, cs, j);
      var r := Find(Revised(ts, cs), NameOf, ts[j].name);
      if CanStay(cs[|cs| - 1], ts[j]) {
        StayingLast(r.value, cs, ts[j]);
      } else {
        StayingNext(r, cs, ts[j]);
      }
    }
  }

  lemma RevisedLast(ts: seq<Endpoint>, cs: seq<Connector>, j: nat)
    requires cs != [] && IsLast(ts, EndpointName, j) && ts[j].name.Some?
    ensures var n := |cs| - 1;
      var r, r0 := Find(Revised(ts, cs), NameOf, ts[j].name), Find(Revised(ts, cs[..n]), NameOf, ts[j].name);
      if CanStay(cs[n], ts[j]) then r.Some? && Continues(r.value, cs[n], ts[j]) else r == r0
  {
    var n := |cs| - 1;
    ReviseNames(ts, cs[n]);
    if cs[n].name == ts[j].name {
      ReviseExact(ts, cs[n], j);
    }
    if Revise(ts, cs[n]).Some? {
      FindAppend(Revised(ts, cs[..n]), Revise(ts, cs[n]).value, NameOf, ts[j].name);
    } else {
      assert Revised(ts, cs) == Revised(ts, cs[..n]);
    }
  }

  lemma ReviseNames(ts: seq<Endpoint>, o: Connector)
    ensures Revise(ts, o).Some? ==> Revise(ts, o).value.name == o.name && o.name.Some?
  {
  }

  lemma KeptFor(ts: seq<Endpoint>, cs: seq<Connector>, j: nat, firstId: Uuid)
    requires IsLast(ts, EndpointName, j) && ts[j].name.Some?
    ensures forall c :: c in Kept(ts, cs) && c.name == ts[j].name ==> ConnectorFor(c, ts, j, cs, firstId)
    ensures !Has(Kept(ts, cs), ts[j].name) ==> forall i :: 0 <= i < |cs| ==> !CanStay(cs[i], ts[j])
  {
    hide Continues, CanStay;
    RevisedFind(ts, cs, j);
    CollectElements(Revised(ts, cs), NameOf);
  }

  /** Kept and added connectors are determined by the old connectors and the revision. */
  lemma ReconciledExactly(ts: seq<Endpoint>, cs: seq<Connector>, operatorId: Uuid, firstId: Uuid)
    ensures ConnectorsFor(Kept(ts, cs) + Add(ts, Kept(ts, cs), operatorId, firstId).connectors, ts, cs, firstId)
  {
    hide Kept, Add, CanStay, Continues;
    var kept := Kept(ts, cs);
    var all := kept + Add(ts, kept, operatorId, firstId).connectors;
    ReconciledInstantiates(ts, cs, operatorId, firstId);
    AddConnectors(ts, kept, operatorId, firstId);
    forall c | c in all ensures exists j: nat :: ConnectorFor(c, ts, j, cs, firstId) {
      assert Conforms(c, ts);
      FindLast(ts, EndpointName, c.name);
      var j: nat :| IsLast(ts, EndpointName, j) && ts[j] == Find(ts, EndpointName, c.name).value;
      KeptFor(ts, cs, j, firstId);
      if c !in kept {
        assert IsNew(c, ts, kept);
      }
      assert ConnectorFor(c, ts, j, cs, firstId);
    }
    forall e | e in ts && e.name.Some? ensures exists c :: c in all && c.name == e.name {
      assert Has(all, e.name);
    }
  }

  /** What an upgrade makes of the inputs and outputs of an operator. */
  lemma UpgradedInherits(v: OperatorView, t: Trafo, firstId: Uuid)
    ensures ConnectorsFor(Upgraded(v, t, firstId).inputs, t.inputs, v.inputs, firstId)
    ensures ConnectorsFor(Upgraded(v, t, firstId).outputs, t.outputs, v.outputs, firstId)
  {
    hide Kept, Add, ConnectorsFor;
    var all := Kept(t.inputs, v.inputs) + AddedInputs(v, t, firstId).connectors;
    var outputId := AddedInputs(v, t, firstId).nextId;
    ReconciledExactly(t.inputs, v.inputs, v.id, firstId);
    ReconciledExactly(t.outputs, v.outputs, v.id, outputId);
    AddConnectors(t.inputs, Kept(t.inputs, v.inputs), v.id, firstId);
    OrderedFor(all, t.inputs, v.inputs, firstId);
    LaterIds(Upgraded(v, t, firstId).outputs, t.outputs, v.outputs, firstId, outputId);
  }

  lemma OrderedFor(all: seq<Connector>, ts: seq<Endpoint>, cs: seq<Connector>, firstId: Uuid)
    requires ConnectorsFor(all, ts, cs, firstId)
    ensures ConnectorsFor(Order(all, KindOfConnector), ts, cs, firstId)
  {
    hide ConnectorFor;
    OrderElements(all, KindOfConnector);
    OrderDistinct(all, KindOfConnector, NameOf);
  }

  lemma LaterIds(all: seq<Connector>, ts: seq<Endpoint>, cs: seq<Connector>, firstId: Uuid, laterId: Uuid)
    requires ConnectorsFor(all, ts, cs, laterId) && firstId <= laterId
    ensures ConnectorsFor(all, ts, cs, firstId)
  {
    forall c | c in all ensures exists j: nat :: ConnectorFor(c, ts, j, cs, firstId) {
      var j: nat :| ConnectorFor(c, ts, j, cs, laterId);
      assert ConnectorFor(c, ts, j, cs, firstId);
    }
  }
}
