/** What a workflow records about its own inputs and outputs and about constants, adapted after one of
    its operators was upgraded. */
module WorkflowEntries {
  import opened Wrappers
  import opened IOTypes
  import opened OrderedDict
  import opened InterfaceReconciliation
  import opened Sequences

  // ----- workflow inputs and outputs -----

  ghost predicate NewEntry(c: Content, operatorId: Uuid, firstId: Uuid, nextId: Uuid) {
    c.operatorId == operatorId && c.name.None? && firstId <= c.id < nextId
  }

  lemma {:induction false} AddContents(ts: seq<Endpoint>, kept: seq<Connector>, operatorId: Uuid, firstId: Uuid)
    ensures var a := Add(ts, kept, operatorId, firstId);
      && firstId <= a.nextId && DistinctKeys(a.contents, ContentId)
      && forall c :: c in a.contents ==> NewEntry(c, operatorId, firstId, a.nextId)
  {
    if ts != [] {
      AddContents(ts[..|ts| - 1], kept, operatorId, firstId);
      var a := Add(ts[..|ts| - 1], kept, operatorId, firstId);
      assert forall i :: 0 <= i < |a.contents| ==> a.contents[i] in a.contents;
    }
  }

  /** An entry stands for a new required connector. */
  ghost predicate Exposes(c: Content, k: Connector) {
    c.connectorId == k.id && c.connectorName == k.name && c.dataType == k.dataType && c.slot == k.slot && KindOf(k.slot).REQUIRED?
  }

  ghost predicate EntryExposed(cs: seq<Connector>, d: Content) {
    exists l :: l in cs && Exposes(d, l)
  }

  ghost predicate RequiredExposed(a: Additions) {
    forall k :: k in a.connectors && KindOf(k.slot).REQUIRED? ==> exists c :: c in a.contents && Exposes(c, k)
  }

  ghost predicate ExposesAll(a: Additions) {
    RequiredExposed(a) && forall c :: c in a.contents ==> EntryExposed(a.connectors, c)
  }

  /** No required endpoint that becomes a new connector is followed by another of its name. */
  ghost predicate NotRepeated(ts: seq<Endpoint>, kept: seq<Connector>) {
    forall i, j :: 0 <= i < j < |ts| && ts[i].name.Some? && ts[i].name == ts[j].name && !Has(kept, ts[i].name) ==> KindOf(ts[i].slot).OPTIONAL?
  }

  ghost predicate IdsBefore(a: Additions) {
    && (forall k :: k in a.connectors ==> k.id < a.nextId)
    && (forall c :: c in a.contents ==> c.connectorId < a.nextId)
  }

  /** Exactly the new connectors that are not optional become inputs or outputs of the workflow, unless a
      draft revision has a required endpoint whose name comes up again; names in use are unique. */
  lemma {:induction false} AddExposesAll(ts: seq<Endpoint>, kept: seq<Connector>, operatorId: Uuid, firstId: Uuid)
    ensures RequiredExposed(Add(ts, kept, operatorId, firstId)) && IdsBefore(Add(ts, kept, operatorId, firstId))
    ensures ExposesAll(Add(ts, kept, operatorId, firstId)) <==> NotRepeated(ts, kept)
  {
    if ts != [] {
      var init, t := ts[..|ts| - 1], ts[|ts| - 1];
      var a := Add(init, kept, operatorId, firstId);
      AddExposesAll(init, kept, operatorId, firstId);
      AddConnectors(init, kept, operatorId, firstId);
      assert ts == init + [t];
      if t.name.Some? && !Has(kept, t.name) {
        ExposesOne(a, t, kept, operatorId);
        RepeatedOne(init, t, kept);
        NameTaken(a, init, t, kept, firstId);
      } else {
        RepeatedOne(init, t, kept);
      }
    }
  }

  /** Of the endpoints before t, one is required and has its name. */
  ghost predicate Taken(init: seq<Endpoint>, t: Endpoint) {
    exists i :: 0 <= i < |init| && init[i].name == t.name && KindOf(init[i].slot).REQUIRED?
  }

  lemma RepeatedOne(init: seq<Endpoint>, t: Endpoint, kept: seq<Connector>)
    ensures NotRepeated(init + [t], kept) <==>
      NotRepeated(init, kept) && (t.name.Some? && !Has(kept, t.name) ==> !Taken(init, t))
  {
    var ts := init + [t];
    assert ts[|init|] == t && forall i :: 0 <= i < |init| ==> ts[i] == init[i];
    if NotRepeated(ts, kept) {
      forall i, j | 0 <= i < j < |init| && init[i].name.Some? && init[i].name == init[j].name && !Has(kept, init[i].name)
        ensures KindOf(init[i].slot).OPTIONAL?
      {
        assert ts[i] == init[i] && ts[j] == init[j];
      }
      forall i | 0 <= i < |init| && init[i].name == t.name && t.name.Some? && !Has(kept, t.name) ensures KindOf(init[i].slot).OPTIONAL? {
        assert ts[i].name == ts[|init|].name;
      }
    }
  }

  /** As long as no required name came up twice, a required endpoint of the name has a required connector. */
  lemma {:induction false} NameTaken(a: Additions, init: seq<Endpoint>, t: Endpoint, kept: seq<Connector>, firstId: Uuid)
    requires Added(a, init, kept, firstId) && t.name.Some? && !Has(kept, t.name)
    ensures NotRepeated(init, kept) ==>
      (Taken(init, t) <==> exists k :: k in a.connectors && k.name == t.name && KindOf(k.slot).REQUIRED?)
  {
    if NotRepeated(init, kept) {
      if i :| 0 <= i < |init| && init[i].name == t.name && KindOf(init[i].slot).REQUIRED? {
        assert init[i] in init && Has(a.connectors, t.name);
        var k := Find(a.connectors, NameOf, t.name).value;
        assert IsNew(k, init, kept);
        var u := Find(init, EndpointName, t.name).value;
        var j :| 0 <= j < |init| && init[j] == u;
        LastOfName(init, t.name, i);
      }
      if k :| k in a.connectors && k.name == t.name && KindOf(k.slot).REQUIRED? {
        assert IsNew(k, init, kept);
        var u := Find(init, EndpointName, t.name).value;
        var j :| 0 <= j < |init| && init[j] == u;
      }
    }
  }

  /** The endpoint found for a name is the given one or comes later. */
  lemma {:induction false} LastOfName(ts: seq<Endpoint>, name: Option<Name>, i: nat)
    requires i < |ts| && ts[i].name == name
    ensures exists j :: i <= j < |ts| && Find(ts, EndpointName, name) == Some(ts[j])
  {
    if ts[|ts| - 1].name != name {
      LastOfName(ts[..|ts| - 1], name, i);
    }
  }

  /** How a' differs from a: by connector k in place of any of its name, and by c if k is required. */
  ghost predicate OneAdded(a: Additions, a': Additions, t: Endpoint, k: Connector, c: Content) {
    && k.name == t.name && k.slot == t.slot && k.id == a.nextId
    && (forall x :: x in a'.connectors <==> x == k || (x in a.connectors && x.name != t.name))
    && (forall x :: x in a'.contents <==> x in a.contents || (KindOf(t.slot).REQUIRED? && x == c))
    && (KindOf(t.slot).REQUIRED? ==> Exposes(c, k))
  }

  lemma AddOneShape(a: Additions, t: Endpoint, kept: seq<Connector>, operatorId: Uuid)
    returns (k: Connector, c: Content)
    requires t.name.Some? && !Has(kept, t.name) && DistinctKeys(a.connectors, NameOf)
    ensures var a' := AddOne(a, t, kept, operatorId);
      && OneAdded(a, a', t, k, c) && c.connectorId == a.nextId < a'.nextId
  {
    var optional := KindOf(t.slot).OPTIONAL?;
    k := Connector(a.nextId, t.name, t.dataType, t.slot, !optional);
    c := Content(a.nextId + 1, None, t.dataType, t.slot, operatorId, a.nextId, t.name, ORIGIN);
    InsertElements(a.connectors, k, NameOf);
  }

  lemma ExposesOne(a: Additions, t: Endpoint, kept: seq<Connector>, operatorId: Uuid)
    requires t.name.Some? && !Has(kept, t.name) && DistinctKeys(a.connectors, NameOf)
    requires RequiredExposed(a) && IdsBefore(a)
    ensures var a' := AddOne(a, t, kept, operatorId);
      && RequiredExposed(a') && IdsBefore(a')
      && (ExposesAll(a') <==> ExposesAll(a) && !exists k :: k in a.connectors && k.name == t.name && KindOf(k.slot).REQUIRED?)
  {
    var k, c := AddOneShape(a, t, kept, operatorId);
    var a' := AddOne(a, t, kept, operatorId);
    hide AddOne, Exposes;
    RequiredOne(a, a', t, k, c);
    if l :| l in a.connectors && l.name == t.name && KindOf(l.slot).REQUIRED? {
      EntryLeft(a, a', t, k, c, l);
    } else {
      EntriesKept(a, a', t, k, c);
    }
  }

  lemma RequiredOne(a: Additions, a': Additions, t: Endpoint, k: Connector, c: Content)
    requires RequiredExposed(a) && OneAdded(a, a', t, k, c)
    ensures RequiredExposed(a')
  {
    hide Exposes;
    forall l | l in a'.connectors && KindOf(l.slot).REQUIRED? ensures exists d :: d in a'.contents && Exposes(d, l) {
      if l != k {
        var d :| d in a.contents && Exposes(d, l);
        assert d in a'.contents;
      } else {
        assert c in a'.contents;
      }
    }
  }

  /** The entry of a connector that was replaced exposes no other. */
  lemma EntryLeft(a: Additions, a': Additions, t: Endpoint, k: Connector, c: Content, l: Connector)
    requires RequiredExposed(a) && IdsBefore(a) && OneAdded(a, a', t, k, c)
    requires l in a.connectors && l.name == t.name && KindOf(l.slot).REQUIRED?
    ensures !ExposesAll(a')
  {
    var d :| d in a.contents && Exposes(d, l);
    assert d in a'.contents;
    assert forall x :: x in a'.connectors ==> !Exposes(d, x);
  }

  lemma EntryKept(a: Additions, a': Additions, t: Endpoint, k: Connector, c: Content, d: Content)
    requires IdsBefore(a) && OneAdded(a, a', t, k, c) && d in a.contents
    requires forall l :: l in a.connectors && l.name == t.name ==> KindOf(l.slot).OPTIONAL?
    ensures EntryExposed(a'.connectors, d) <==> EntryExposed(a.connectors, d)
  {
    if l :| l in a.connectors && Exposes(d, l) {
      assert l in a'.connectors;
    }
    if l :| l in a'.connectors && Exposes(d, l) {
      assert l != k;
    }
  }

  lemma EntriesKept(a: Additions, a': Additions, t: Endpoint, k: Connector, c: Content)
    requires RequiredExposed(a) && RequiredExposed(a') && IdsBefore(a) && OneAdded(a, a', t, k, c)
    requires forall l :: l in a.connectors && l.name == t.name ==> KindOf(l.slot).OPTIONAL?
    ensures ExposesAll(a') <==> ExposesAll(a)
  {
    hide Exposes, RequiredExposed, IdsBefore, EntryExposed;
    forall d | d in a.contents ensures EntryExposed(a'.connectors, d) <==> EntryExposed(a.connectors, d) {
      EntryKept(a, a', t, k, c, d);
    }
    if KindOf(t.slot).REQUIRED? {
      NewEntryExposed(a', c, k);
    }
  }

  lemma NewEntryExposed(a: Additions, c: Content, k: Connector)
    requires k in a.connectors && Exposes(c, k)
    ensures EntryExposed(a.connectors, c)
  {
  }

  /** What the workflow records about its inputs or about its outputs: the entries of its content, its
      io interface, and its test wirings. */
  datatype Side = Side(contents: seq<Content>, io: seq<Endpoint>, wirings: seq<Wiring>)

  function KeepsContent(operatorId: Uuid, kept: seq<Connector>): Content -> bool {
    (c: Content) => c.operatorId != operatorId || Has(kept, c.connectorName)
  }

  predicate MatchesContent(e: Endpoint, contents: seq<Content>) {
    var c := Find(contents, ContentId, e.id);
    c.Some? && c.value.dataType == e.dataType
  }

  predicate WiringFits(w: Wiring, before: seq<Endpoint>, after: seq<Endpoint>) {
    var b, a := Find(before, EndpointName, Some(w.name)), Find(after, EndpointName, Some(w.name));
    a.Some? && b.Some? && a.value.dataType == b.value.dataType
  }

  function ToEndpoints(cs: seq<Content>): seq<Endpoint> {
    seq(|cs|, i requires 0 <= i < |cs| => Endpoint(cs[i].id, cs[i].name, cs[i].dataType, cs[i].slot))
  }

  function UpgradedContents(s: Side, operatorId: Uuid, kept: seq<Connector>, added: seq<Content>): seq<Content> {
    Filter(s.contents, KeepsContent(operatorId, kept)) + added
  }

  function UpgradedIo(io: seq<Endpoint>, contents: seq<Content>, added: seq<Content>): seq<Endpoint> {
    Filter(io, (e: Endpoint) => MatchesContent(e, contents)) + ToEndpoints(added)
  }

  function UpgradedWirings(ws: seq<Wiring>, before: seq<Endpoint>, after: seq<Endpoint>): seq<Wiring> {
    Filter(ws, (w: Wiring) => WiringFits(w, before, after))
  }

  function UpgradedSide(s: Side, operatorId: Uuid, kept: seq<Connector>, added: seq<Content>): Side {
    var contents := UpgradedContents(s, operatorId, kept, added);
    var io := UpgradedIo(s.io, contents, added);
    Side(contents, io, UpgradedWirings(s.wirings, s.io, io))
  }

  /** Looking up the previous type of a wired input or output never fails: all names still there were
      there before. */
  lemma NamesWereThere(s: Side, contents: seq<Content>, added: seq<Content>, name: Name)
    requires forall c :: c in added ==> c.name.None?
    requires Find(UpgradedIo(s.io, contents, added), EndpointName, Some(name)).Some?
    ensures Find(s.io, EndpointName, Some(name)).Some?
  {
    var e := Find(UpgradedIo(s.io, contents, added), EndpointName, Some(name)).value;
    FilterElements(s.io, (e: Endpoint) => MatchesContent(e, contents));
    assert e !in ToEndpoints(added);
  }

  ghost predicate IoMatches(s: Side) {
    forall e :: e in s.io ==> MatchesContent(e, s.contents)
  }

  lemma FindAppended<T, K>(a: seq<T>, b: seq<T>, key: T -> K, x: T)
    requires DistinctKeys(b, key) && x in b
    ensures Find(a + b, key, key(x)) == Some(x)
  {
    var n := |b| - 1;
    assert (a + b)[|a + b| - 1] == b[n];
    if key(b[n]) != key(x) {
      assert (a + b)[..|a + b| - 1] == a + b[..n];
      assert b == b[..n] + [b[n]];
      FindAppended(a, b[..n], key, x);
    }
  }

  /** After an upgrade, every entry of the io interface names an entry of the content by id, of the same
      type, whether or not it did before. */
  lemma UpgradedIoMatches(s: Side, operatorId: Uuid, kept: seq<Connector>, added: seq<Content>)
    requires DistinctKeys(added, ContentId)
    ensures IoMatches(UpgradedSide(s, operatorId, kept, added))
  {
    var contents := UpgradedContents(s, operatorId, kept, added);
    FilterElements(s.io, (e: Endpoint) => MatchesContent(e, contents));
    forall e | e in ToEndpoints(added) ensures MatchesContent(e, contents) {
      var i :| 0 <= i < |added| && e == ToEndpoints(added)[i];
      FindAppended(Filter(s.contents, KeepsContent(operatorId, kept)), added, ContentId, added[i]);
    }
  }

  function OfOperator(operatorId: Uuid): Content -> bool {
    (c: Content) => c.operatorId == operatorId
  }

  function KeepsName(kept: seq<Connector>): Content -> bool {
    (c: Content) => Has(kept, c.connectorName)
  }

  /** The entries for other operators are untouched; of those for the upgraded operator the ones on
      kept connectors remain, followed by the new ones. */
  lemma UpgradedEntries(s: Side, operatorId: Uuid, kept: seq<Connector>, added: seq<Content>, other: Uuid)
    requires forall c :: c in added ==> c.operatorId == operatorId
    ensures Filter(UpgradedSide(s, operatorId, kept, added).contents, OfOperator(other)) ==
      if other == operatorId then Filter(Filter(s.contents, OfOperator(other)), KeepsName(kept)) + added
      else Filter(s.contents, OfOperator(other))
  {
    var remaining := Filter(s.contents, KeepsContent(operatorId, kept));
    FilterAppend(remaining, added, OfOperator(other));
    if other == operatorId {
      FilterAll(added, OfOperator(other));
      var both := (c: Content) => c.operatorId == other && Has(kept, c.connectorName);
      FilterTwice(s.contents, KeepsContent(operatorId, kept), OfOperator(other), both);
      FilterTwice(s.contents, OfOperator(other), KeepsName(kept), both);
    } else {
      FilterNone(added, OfOperator(other));
      FilterTwice(s.contents, KeepsContent(operatorId, kept), OfOperator(other), OfOperator(other));
    }
  }

  // ----- constants -----

  predicate ConstantFits(c: Constant, inputs: seq<Connector>) {
    var i := Find(inputs, NameOf, c.connectorName);
    i.Some? && c.dataType == i.value.dataType
  }

  function KeepsConstant(operatorId: Uuid, inputs: seq<Connector>): Constant -> bool {
    (c: Constant) => c.operatorId != operatorId || ConstantFits(c, inputs)
  }

  function FixConstants(cs: seq<Constant>, operatorId: Uuid, inputs: seq<Connector>): seq<Constant> {
    Filter(cs, KeepsConstant(operatorId, inputs))
  }

  /** The wirings are some of those before, for inputs or outputs that are still there with their type. */
  ghost predicate WiringsFit(before: Side, after: Side) {
    forall w :: w in after.wirings ==> w in before.wirings && WiringFits(w, before.io, after.io)
  }

  ghost predicate SideDone(before: Side, after: Side) {
    IoMatches(after) && WiringsFit(before, after)
  }

  lemma UpgradedSideDone(s: Side, operatorId: Uuid, kept: seq<Connector>, added: seq<Content>)
    requires DistinctKeys(added, ContentId)
    ensures SideDone(s, UpgradedSide(s, operatorId, kept, added))
  {
    UpgradedIoMatches(s, operatorId, kept, added);
    var io := UpgradedSide(s, operatorId, kept, added).io;
    FilterElements(s.wirings, (w: Wiring) => WiringFits(w, s.io, io));
  }

  lemma SideDoneTransitive(a: Side, b: Side, c: Side)
    requires SideDone(a, b) && SideDone(b, c)
    ensures SideDone(a, c)
  {
    assert forall w :: w in c.wirings ==> WiringFits(w, b.io, c.io);
    assert forall w :: w in b.wirings ==> WiringFits(w, a.io, b.io);
  }
}
