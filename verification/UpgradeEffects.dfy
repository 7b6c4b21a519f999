/** What upgrades change beside the interface of an operator, said of the lists themselves: which entries,
    constants, wirings and links remain, where links meet the operator, and in which order connectors stand. */
module UpgradeEffects {
  import opened Wrappers
  import opened IOTypes
  import opened Sequences
  import opened OrderedDict
  import opened InputOrdering
  import opened InterfaceReconciliation
  import opened WorkflowEntries
  import opened LinkPaths
  import opened OperatorUpgrade

  // ----- entries of the content, io interface, wirings, constants -----

  /** A connector of that name and type. */
  ghost predicate Offers(cs: seq<Connector>, name: Option<Name>, dataType: DataType) {
    exists c :: c in cs && c.name == name && c.dataType == dataType
  }

  /** Of the old connectors of that name one can stay. */
  ghost predicate Continued(ts: seq<Endpoint>, cs: seq<Connector>, name: Option<Name>) {
    exists j: nat, i: nat :: IsLast(ts, EndpointName, j) && ts[j].name == name && i < |cs| && CanStay(cs[i], ts[j])
  }

  /** The (last) content entry with the id of the io interface entry is of its type. */
  ghost predicate Backed(e: Endpoint, contents: seq<Content>) {
    exists j: nat :: IsLast(contents, ContentId, j) && contents[j].id == e.id && contents[j].dataType == e.dataType
  }

  /** The (last) entry of that name is of that type. */
  ghost predicate HasType(io: seq<Endpoint>, name: Name, dataType: DataType) {
    exists j: nat :: IsLast(io, EndpointName, j) && io[j].name == Some(name) && io[j].dataType == dataType
  }

  ghost predicate SameType(before: seq<Endpoint>, after: seq<Endpoint>, name: Name) {
    exists d :: HasType(before, name, d) && HasType(after, name, d)
  }

  lemma ContinuedExact(ts: seq<Endpoint>, cs: seq<Connector>, name: Option<Name>)
    ensures Has(Kept(ts, cs), name) <==> Continued(ts, cs, name)
  {
    KeptElements(ts, cs);
    if Has(Kept(ts, cs), name) {
      var r := Find(Kept(ts, cs), NameOf, name).value;
      var c :| c in cs && Revise(ts, c) == Some(r);
      FindLast(ts, EndpointName, c.name);
      var j: nat :| IsLast(ts, EndpointName, j) && ts[j] == Find(ts, EndpointName, c.name).value;
      ReviseExact(ts, c, j);
    }
    if Continued(ts, cs, name) {
      var j: nat, i: nat :| IsLast(ts, EndpointName, j) && ts[j].name == name && i < |cs| && CanStay(cs[i], ts[j]);
      ReviseExact(ts, cs[i], j);
      assert cs[i] in cs;
    }
  }

  lemma BackedExact(e: Endpoint, contents: seq<Content>)
    ensures MatchesContent(e, contents) <==> Backed(e, contents)
  {
    FindLast(contents, ContentId, e.id);
  }

  lemma SameTypeExact(w: Wiring, before: seq<Endpoint>, after: seq<Endpoint>)
    ensures WiringFits(w, before, after) <==> SameType(before, after, w.name)
  {
    FindLast(before, EndpointName, Some(w.name));
    FindLast(after, EndpointName, Some(w.name));
    if WiringFits(w, before, after) {
      var d := Find(before, EndpointName, Some(w.name)).value.dataType;
      assert HasType(before, w.name, d) && HasType(after, w.name, d);
    }
  }

  lemma OffersExact(c: Constant, inputs: seq<Connector>)
    requires DistinctKeys(inputs, NameOf)
    ensures ConstantFits(c, inputs) <==> Offers(inputs, c.connectorName, c.dataType)
  {
    if i :| i in inputs && i.name == c.connectorName && i.dataType == c.dataType {
      FindUnique(inputs, NameOf, i);
    }
  }

  /** What happens to one side of a workflow when an operator is upgraded whose connectors `cs` on that side
      are reconciled with `ts`: entries for others stay, those for the operator if their connector goes on;
      then come the new entries. The io interface and the wirings follow. */
  ghost predicate SideChanged(s: Side, s': Side, operatorId: Uuid, ts: seq<Endpoint>, cs: seq<Connector>, added: seq<Content>) {
    && s'.contents == Filter(s.contents, (c: Content) => c.operatorId == operatorId ==> Continued(ts, cs, c.connectorName)) + added
    && (exists ends :: SameEntriesAs(ends, added) && s'.io == Filter(s.io, (e: Endpoint) => Backed(e, s'.contents)) + ends)
    && s'.wirings == Filter(s.wirings, (w: Wiring) => SameType(s.io, s'.io, w.name))
  }

  ghost predicate SameEntriesAs(ends: seq<Endpoint>, cs: seq<Content>) {
    && |ends| == |cs|
    && forall k :: 0 <= k < |ends| ==>
         ends[k].id == cs[k].id && ends[k].name == cs[k].name && ends[k].dataType == cs[k].dataType && ends[k].slot == cs[k].slot
  }

  lemma SideChanges(s: Side, operatorId: Uuid, ts: seq<Endpoint>, cs: seq<Connector>, added: seq<Content>)
    ensures SideChanged(s, UpgradedSide(s, operatorId, Kept(ts, cs), added), operatorId, ts, cs, added)
  {
    hide Kept, Has, Continued, Backed, SameType, MatchesContent, WiringFits;
    var kept := Kept(ts, cs);
    var s' := UpgradedSide(s, operatorId, kept, added);
    forall c: Content ensures Has(kept, c.connectorName) <==> Continued(ts, cs, c.connectorName) {
      ContinuedExact(ts, cs, c.connectorName);
    }
    FilterSame(s.contents, KeepsContent(operatorId, kept), (c: Content) => c.operatorId == operatorId ==> Continued(ts, cs, c.connectorName));
    forall e: Endpoint ensures MatchesContent(e, s'.contents) <==> Backed(e, s'.contents) {
      BackedExact(e, s'.contents);
    }
    FilterSame(s.io, (e: Endpoint) => MatchesContent(e, s'.contents), (e: Endpoint) => Backed(e, s'.contents));
    assert SameEntriesAs(ToEndpoints(added), added);
    forall w: Wiring ensures WiringFits(w, s.io, s'.io) <==> SameType(s.io, s'.io, w.name) {
      SameTypeExact(w, s.io, s'.io);
    }
    FilterSame(s.wirings, (w: Wiring) => WiringFits(w, s.io, s'.io), (w: Wiring) => SameType(s.io, s'.io, w.name));
  }

  /** Required inputs, and all outputs. */
  ghost predicate Needed(s: Slot) {
    s.Output? || s.inputType.REQUIRED?
  }

  /** New unnamed entries with fresh ids for the operator, among them one for each connector that is new and
      required. If no new required endpoint comes up twice, there are no others. */
  ghost predicate NewEntries(added: seq<Content>, operatorId: Uuid, ts: seq<Endpoint>, cs: seq<Connector>, connectors: seq<Connector>, firstId: Uuid) {
    && DistinctKeys(added, ContentId)
    && (forall c :: c in added ==> c.operatorId == operatorId && c.name.None? && c.id >= firstId)
    && (forall k :: k in connectors && Needed(k.slot) && !Continued(ts, cs, k.name) ==> exists c :: c in added && Exposes(c, k))
    && (NoneTwice(ts, cs) ==> forall c :: c in added ==> !Continued(ts, cs, c.connectorName) && EntryExposed(connectors, c))
  }

  ghost predicate NoneTwice(ts: seq<Endpoint>, cs: seq<Connector>) {
    forall i, j :: 0 <= i < j < |ts| && ts[i].name.Some? && ts[i].name == ts[j].name && !Continued(ts, cs, ts[i].name) ==>
      !Needed(ts[i].slot)
  }

  lemma NewEntriesMade(ts: seq<Endpoint>, cs: seq<Connector>, operatorId: Uuid, firstId: Uuid, connectors: seq<Connector>)
    requires var kept := Kept(ts, cs);
      forall k :: k in connectors <==> k in kept || k in Add(ts, kept, operatorId, firstId).connectors
    ensures NewEntries(Add(ts, Kept(ts, cs), operatorId, firstId).contents, operatorId, ts, cs, connectors, firstId)
  {
    hide Kept, Add, Continued, Exposes;
    var kept := Kept(ts, cs);
    var a := Add(ts, kept, operatorId, firstId);
    AddContents(ts, kept, operatorId, firstId);
    AddConnectors(ts, kept, operatorId, firstId);
    AddExposesAll(ts, kept, operatorId, firstId);
    forall name ensures Has(kept, name) <==> Continued(ts, cs, name) {
      ContinuedExact(ts, cs, name);
    }
    forall k | k in connectors && Needed(k.slot) && !Continued(ts, cs, k.name) ensures exists c :: c in a.contents && Exposes(c, k) {
      assert k in a.connectors;
    }
    if NoneTwice(ts, cs) {
      forall c | c in a.contents ensures !Continued(ts, cs, c.connectorName) && EntryExposed(connectors, c) {
        var k :| k in a.connectors && Exposes(c, k);
        EntryName(c, k);
      }
    }
  }

  lemma EntryName(c: Content, k: Connector)
    requires Exposes(c, k)
    ensures c.connectorName == k.name
  {
  }

  lemma LaterEntries(added: seq<Content>, operatorId: Uuid, ts: seq<Endpoint>, cs: seq<Connector>, connectors: seq<Connector>, firstId: Uuid, laterId: Uuid)
    requires NewEntries(added, operatorId, ts, cs, connectors, laterId) && firstId <= laterId
    ensures NewEntries(added, operatorId, ts, cs, connectors, firstId)
  {
    hide Continued, Exposes, EntryExposed, NoneTwice;
  }

  // ----- which links stay -----

  /** Ends whose connector carries the id of the operator must fit it strictly. */
  ghost predicate LinkStays(l: LinkView, v: OperatorView) {
    && (l.end.connectorId == v.id ==> l.start.dataType == l.end.dataType && Offers(v.inputs, l.end.connectorName, l.end.dataType))
    && (l.start.connectorId == v.id ==> l.start.dataType == l.end.dataType && Offers(v.outputs, l.start.connectorName, l.start.dataType))
  }

  lemma LinkStaysExact(l: LinkView, v: OperatorView)
    requires DistinctKeys(v.inputs, NameOf) && DistinctKeys(v.outputs, NameOf)
    ensures LinkStays(l, v) <==> KeepsInto(v.id, v.inputs)(l) && KeepsOutOf(v.id, v.outputs)(l)
  {
    if i :| i in v.inputs && i.name == l.end.connectorName && i.dataType == l.end.dataType {
      FindUnique(v.inputs, NameOf, i);
    }
    if o :| o in v.outputs && o.name == l.start.connectorName && o.dataType == l.start.dataType {
      FindUnique(v.outputs, NameOf, o);
    }
  }

  /** Apart from their paths the links are those that stay. */
  ghost predicate LinksChanged(ls: seq<LinkView>, ls': seq<LinkView>, v: OperatorView) {
    && (forall l' :: l' in ls' ==> exists l :: l in ls && SameEnds(l, l') && LinkStays(l, v))
    && (forall l :: l in ls && LinkStays(l, v) ==> exists l' :: l' in ls' && SameEnds(l, l'))
  }

  lemma LinksChange(ls: seq<LinkView>, v: OperatorView)
    requires DistinctKeys(v.inputs, NameOf) && DistinctKeys(v.outputs, NameOf)
    ensures LinksChanged(ls, UpgradedLinks(ls, v), v)
  {
    hide LinkStays, KeepsInto, KeepsOutOf, SameEnds, UpgradedLinks;
    UpgradedLinksExact(ls, v);
    forall l: LinkView ensures LinkStays(l, v) <==> KeepsInto(v.id, v.inputs)(l) && KeepsOutOf(v.id, v.outputs)(l) {
      LinkStaysExact(l, v);
    }
  }

  // ----- one upgrade -----

  /** What upgrading operator k changes outside the operator. */
  lemma UpgradeChanges(f: Flow, k: nat, t: Trafo, firstId: Uuid)
    requires k < |f.operators|
    ensures var g, v := Upgrade(f, k, t, firstId).0, f.operators[k];
      && |g.operators| == |f.operators| && (forall j :: 0 <= j < |f.operators| && j != k ==> g.operators[j] == f.operators[j])
      && (exists added :: SideChanged(f.inputs, g.inputs, v.id, t.inputs, v.inputs, added)
            && NewEntries(added, v.id, t.inputs, v.inputs, g.operators[k].inputs, firstId))
      && (exists added :: SideChanged(f.outputs, g.outputs, v.id, t.outputs, v.outputs, added)
            && NewEntries(added, v.id, t.outputs, v.outputs, g.operators[k].outputs, firstId))
      && g.constants ==
         Filter(f.constants, (c: Constant) => c.operatorId == v.id ==> Offers(g.operators[k].inputs, c.connectorName, c.dataType))
      && LinksChanged(f.links, g.links, g.operators[k])
  {
    hide SideChanged, NewEntries, UpgradedSide, UpgradedLinks, Kept, Add, Offers, ConstantFits, LinksChanged;
    var g, v := Upgrade(f, k, t, firstId).0, f.operators[k];
    var v' := g.operators[k];
    SideChanges(f.inputs, v.id, t.inputs, v.inputs, AddedInputs(v, t, firstId).contents);
    SideChanges(f.outputs, v.id, t.outputs, v.outputs, AddedOutputs(v, t, firstId).contents);
    OrderElements(Kept(t.inputs, v.inputs) + AddedInputs(v, t, firstId).connectors, KindOfConnector);
    NewEntriesMade(t.inputs, v.inputs, v.id, firstId, v'.inputs);
    AddContents(t.inputs, Kept(t.inputs, v.inputs), v.id, firstId);
    NewEntriesMade(t.outputs, v.outputs, v.id, AddedInputs(v, t, firstId).nextId, v'.outputs);
    LaterEntries(AddedOutputs(v, t, firstId).contents, v.id, t.outputs, v.outputs, v'.outputs, firstId, AddedInputs(v, t, firstId).nextId);
    UpgradedIsInstance(v, t, firstId);
    LinksChange(f.links, v');
    forall c: Constant ensures ConstantFits(c, v'.inputs) <==> Offers(v'.inputs, c.connectorName, c.dataType) {
      OffersExact(c, v'.inputs);
    }
    FilterSame(f.constants, KeepsConstant(v.id, v'.inputs), (c: Constant) => c.operatorId == v.id ==> Offers(v'.inputs, c.connectorName, c.dataType));
  }

  // ----- entries after a whole run -----

  ghost predicate EntriesReconciled(before: seq<Content>, after: seq<Content>, v: OperatorView, ts: seq<Endpoint>, cs: seq<Connector>, added: seq<Content>) {
    Filter(after, (c: Content) => c.operatorId == v.id) ==
      Filter(before, (c: Content) => c.operatorId == v.id && Continued(ts, cs, c.connectorName)) + added
  }

  ghost predicate ConstantsReconciled(before: seq<Constant>, after: seq<Constant>, v': OperatorView) {
    Filter(after, (c: Constant) => c.operatorId == v'.id) ==
      Filter(before, (c: Constant) => c.operatorId == v'.id && Offers(v'.inputs, c.connectorName, c.dataType))
  }

  lemma EntriesReconcile(before: seq<Content>, after: seq<Content>, v: OperatorView, ts: seq<Endpoint>, cs: seq<Connector>, added: seq<Content>)
    requires Filter(after, OfOperator(v.id)) == Filter(Filter(before, OfOperator(v.id)), KeepsName(Kept(ts, cs))) + added
    ensures EntriesReconciled(before, after, v, ts, cs, added)
  {
    hide Kept, Has, Continued;
    forall name ensures Has(Kept(ts, cs), name) <==> Continued(ts, cs, name) {
      ContinuedExact(ts, cs, name);
    }
    var both := (c: Content) => c.operatorId == v.id && Continued(ts, cs, c.connectorName);
    FilterTwice(before, OfOperator(v.id), KeepsName(Kept(ts, cs)), both);
    FilterSame(after, OfOperator(v.id), (c: Content) => c.operatorId == v.id);
  }

  lemma ConstantsReconcile(before: seq<Constant>, after: seq<Constant>, v': OperatorView)
    requires DistinctKeys(v'.inputs, NameOf)
    requires Filter(after, ConstantOf(v'.id)) == Filter(Filter(before, ConstantOf(v'.id)), FitsInputs(v'.inputs))
    ensures ConstantsReconciled(before, after, v')
  {
    hide ConstantFits, Offers;
    forall c: Constant ensures ConstantFits(c, v'.inputs) <==> Offers(v'.inputs, c.connectorName, c.dataType) {
      OffersExact(c, v'.inputs);
    }
    var both := (c: Constant) => c.operatorId == v'.id && Offers(v'.inputs, c.connectorName, c.dataType);
    FilterTwice(before, ConstantOf(v'.id), FitsInputs(v'.inputs), both);
    FilterSame(after, ConstantOf(v'.id), (c: Constant) => c.operatorId == v'.id);
  }

  /** After a complete run: of the entries of an upgraded operator those remain whose connector goes on,
      followed by new ones, and of its constants those that an input of their name and type is left for;
      entries and constants of other operators are as before. */
  lemma RunEntries(f: Flow, r: Request, firstId: Uuid, k: nat)
    requires k < |f.operators| && OperatorsIdentified(f.operators)
    requires RunAll(f, r, firstId).Some?
    ensures var v, g := f.operators[k], RunAll(f, r, firstId).value.0;
      match Choose(v, r)
      case UpgradeTo(t) =>
        && (exists added :: EntriesReconciled(f.inputs.contents, g.inputs.contents, v, t.inputs, v.inputs, added)
              && NewEntries(added, v.id, t.inputs, v.inputs, g.operators[k].inputs, firstId))
        && (exists added :: EntriesReconciled(f.outputs.contents, g.outputs.contents, v, t.outputs, v.outputs, added)
              && NewEntries(added, v.id, t.outputs, v.outputs, g.operators[k].outputs, firstId))
        && ConstantsReconciled(f.constants, g.constants, g.operators[k])
      case _ => SameEntries(f, g, v.id)
  {
    hide EntriesReconciled, NewEntries, ConstantsReconciled, SameEntries;
    var v, ts := f.operators[k], Turns(f.operators, r.onlyDeprecated);
    TurnsExact(f.operators, r.onlyDeprecated);
    var (g, nextId) := Run(f, r, ts, firstId).value;
    RunPointwise(f, r, ts, firstId, k);
    assert HasTurn(ts, k) <==> IsChecked(v.state, r.onlyDeprecated);
    match Choose(v, r) {
      case UpgradeTo(t) =>
        var id :| firstId <= id <= nextId && Reconciled(f, g, k, t, id);
        AloneEntries(f, g, k, t, firstId, id);
      case _ =>
    }
  }

  lemma AloneEntries(f: Flow, g: Flow, k: nat, t: Trafo, firstId: Uuid, id: Uuid)
    requires k < |f.operators| == |g.operators| && firstId <= id && Reconciled(f, g, k, t, id)
    ensures var v := f.operators[k];
      && (exists added :: EntriesReconciled(f.inputs.contents, g.inputs.contents, v, t.inputs, v.inputs, added)
            && NewEntries(added, v.id, t.inputs, v.inputs, g.operators[k].inputs, firstId))
      && (exists added :: EntriesReconciled(f.outputs.contents, g.outputs.contents, v, t.outputs, v.outputs, added)
            && NewEntries(added, v.id, t.outputs, v.outputs, g.operators[k].outputs, firstId))
      && ConstantsReconciled(f.constants, g.constants, g.operators[k])
  {
    hide EntriesReconciled, NewEntries, ConstantsReconciled, Kept, Add, ConstantFits;
    var v, v' := f.operators[k], g.operators[k];
    EntriesReconcile(f.inputs.contents, g.inputs.contents, v, t.inputs, v.inputs, AddedInputs(v, t, id).contents);
    EntriesReconcile(f.outputs.contents, g.outputs.contents, v, t.outputs, v.outputs, AddedOutputs(v, t, id).contents);
    OrderElements(Kept(t.inputs, v.inputs) + AddedInputs(v, t, id).connectors, KindOfConnector);
    NewEntriesMade(t.inputs, v.inputs, v.id, id, v'.inputs);
    AddContents(t.inputs, Kept(t.inputs, v.inputs), v.id, id);
    var next := AddedInputs(v, t, id).nextId;
    NewEntriesMade(t.outputs, v.outputs, v.id, next, v'.outputs);
    LaterEntries(AddedInputs(v, t, id).contents, v.id, t.inputs, v.inputs, v'.inputs, firstId, id);
    LaterEntries(AddedOutputs(v, t, id).contents, v.id, t.outputs, v.outputs, v'.outputs, firstId, next);
    UpgradedIsInstance(v, t, id);
    ConstantsReconcile(f.constants, g.constants, v');
  }

  // ----- where links meet the operator -----

  /** Drawn at the operator: named, and required or exposed. */
  ghost predicate Drawn(c: Connector) {
    c.name.Some? && (Needed(c.slot) || c.exposed)
  }

  /** How many connectors are drawn above the k-th. */
  ghost function Above(cs: seq<Connector>, k: nat): nat
    requires k <= |cs|
  {
    if k == 0 then 0 else Above(cs, k - 1) + if Drawn(cs[k - 1]) then 1 else 0
  }

  lemma {:induction false} AboveInit(cs: seq<Connector>, c: Connector, k: nat)
    requires k <= |cs|
    ensures Above(cs + [c], k) == Above(cs, k)
  {
    if k > 0 {
      AboveInit(cs, c, k - 1);
    }
  }

  lemma {:induction false} DrawnAt(cs: seq<Connector>)
    ensures |Filter(cs, IsShown)| == Above(cs, |cs|)
    ensures forall k :: 0 <= k < |cs| && Drawn(cs[k]) ==> Above(cs, k) < Above(cs, |cs|) && Filter(cs, IsShown)[Above(cs, k)] == cs[k]
  {
    if cs != [] {
      var n := |cs| - 1;
      var init := cs[..n];
      assert cs == init + [cs[n]];
      DrawnAt(init);
      forall k: nat | k <= n ensures Above(cs, k) == Above(init, k) {
        AboveInit(init, cs[n], k);
      }
      assert IsShown(cs[n]) <==> Drawn(cs[n]);
    }
  }

  lemma ShownAt(cs: seq<Connector>, k: nat)
    requires DistinctKeys(cs, NameOf) && k < |cs| && Drawn(cs[k])
    ensures Above(cs, k) < |Shown(cs)| && Shown(cs)[Above(cs, k)] == cs[k]
  {
    FilterKeys(cs, IsShown, NameOf);
    CollectDistinct(Filter(cs, IsShown), NameOf);
    DrawnAt(cs);
  }

  /** Link i is the last one into the input of that name. */
  ghost predicate IsLastInto(ls: seq<LinkView>, i: nat, operatorId: Uuid, name: Option<Name>) {
    && i < |ls| && ls[i].end.operator == Some(operatorId) && ls[i].end.connectorName == name
    && forall j :: i < j < |ls| ==> !(ls[j].end.operator == Some(operatorId) && ls[j].end.connectorName == name)
  }

  lemma {:induction false} LastIntoExact(ls: seq<LinkView>, i: nat, operatorId: Uuid, name: Option<Name>)
    requires IsLastInto(ls, i, operatorId, name)
    ensures LastInto(ls, operatorId, name) == Some(i)
  {
    if i < |ls| - 1 {
      LastIntoExact(ls[..|ls| - 1], i, operatorId, name);
    }
  }

  /** The path of link i ends at the inputs and starts at the outputs that are drawn for its ends. */
  ghost predicate Meets(ls: seq<LinkView>, i: nat, path: seq<Position>, v: OperatorView)
    requires i < |ls| && |path| >= 2
  {
    && (forall m :: 0 <= m < |v.inputs| && Drawn(v.inputs[m]) && IsLastInto(ls, i, v.id, v.inputs[m].name) ==>
          path[|path| - 1].y == v.position.y + 70.0 + 30.0 * Above(v.inputs, m) as real)
    && (forall m :: 0 <= m < |v.outputs| && Drawn(v.outputs[m]) && ls[i].start.operator == Some(v.id) && ls[i].start.connectorName == v.outputs[m].name ==>
          path[0].y == v.position.y + 70.0 + 30.0 * Above(v.outputs, m) as real)
  }

  lemma PlacedMeets(ls: seq<LinkView>, i: nat, path: seq<Position>, v: OperatorView)
    requires i < |ls| && |path| >= 2 && EndPlaced(ls, i, path, v) && StartPlaced(ls, i, path, v)
    requires DistinctKeys(v.inputs, NameOf) && DistinctKeys(v.outputs, NameOf)
    ensures Meets(ls, i, path, v)
  {
    hide Shown, LastInto, Above;
    forall m | 0 <= m < |v.inputs| && Drawn(v.inputs[m]) && IsLastInto(ls, i, v.id, v.inputs[m].name)
      ensures path[|path| - 1].y == v.position.y + 70.0 + 30.0 * Above(v.inputs, m) as real
    {
      ShownAt(v.inputs, m);
      LastIntoExact(ls, i, v.id, v.inputs[m].name);
    }
    forall m | 0 <= m < |v.outputs| && Drawn(v.outputs[m]) && ls[i].start.operator == Some(v.id) && ls[i].start.connectorName == v.outputs[m].name
      ensures path[0].y == v.position.y + 70.0 + 30.0 * Above(v.outputs, m) as real
    {
      ShownAt(v.outputs, m);
    }
  }

  /** After a complete run the last path into each drawn input, and every path out of a drawn output, of an
      upgraded operator meets it 70 below its top and 30 lower for each connector drawn above. */
  lemma RunHeights(f: Flow, r: Request, firstId: Uuid, i: nat, k: nat)
    requires OperatorsIdentified(f.operators) && AllApart(f) && RunAll(f, r, firstId).Some?
    requires i < |f.links| && k < |f.operators| && |f.links[i].path| >= 2 && Choose(f.operators[k], r).UpgradeTo?
    ensures var g := RunAll(f, r, firstId).value.0;
      |g.links| == |f.links| && |g.links[i].path| >= 2 && Meets(f.links, i, g.links[i].path, g.operators[k])
  {
    hide EndPlaced, StartPlaced, Meets, Upgraded;
    var ts := Turns(f.operators, r.onlyDeprecated);
    TurnsExact(f.operators, r.onlyDeprecated);
    assert HasTurn(ts, k) by {
      assert IsLastChecked(f.operators, r.onlyDeprecated, k);
    }
    RunPaths(f, r, ts, firstId, i);
    RunUpgradesExactly(f, r, firstId, k);
    var g := RunAll(f, r, firstId).value.0;
    PlacedMeets(f.links, i, g.links[i].path, g.operators[k]);
  }

  // ----- in which order connectors stand -----

  ghost predicate Stays(o: Connector, ts: seq<Endpoint>) {
    exists j: nat :: IsLast(ts, EndpointName, j) && CanStay(o, ts[j])
  }

  ghost predicate FirstStaying(ts: seq<Endpoint>, cs: seq<Connector>, i: nat, name: Option<Name>) {
    && i < |cs| && cs[i].name == name && Stays(cs[i], ts)
    && forall j :: 0 <= j < i && cs[j].name == name ==> !Stays(cs[j], ts)
  }

  ghost predicate Increasing(places: seq<nat>) {
    forall m, n :: 0 <= m < n < |places| ==> places[m] < places[n]
  }

  /** Connectors that go on stand where the old ones of their name, that can stay, come first. */
  ghost predicate ContinuedInOrder(kept: seq<Connector>, ts: seq<Endpoint>, cs: seq<Connector>, places: seq<nat>) {
    |places| == |kept| && Increasing(places) && forall m :: 0 <= m < |kept| ==> FirstStaying(ts, cs, places[m], kept[m].name)
  }

  /** New ones stand where the revision first mentions their names, and have ids of their own. */
  ghost predicate NewInOrder(added: seq<Connector>, ts: seq<Endpoint>, cs: seq<Connector>, places: seq<nat>, firstId: Uuid) {
    && |places| == |added| && Increasing(places)
    && (forall m :: 0 <= m < |added| ==> IsFirst(ts, EndpointName, places[m]) && ts[places[m]].name == added[m].name)
    && (forall m :: 0 <= m < |added| ==> added[m].id >= firstId && !Continued(ts, cs, added[m].name))
    && (forall m, n :: 0 <= m < n < |added| ==> added[m].id != added[n].id)
  }

  lemma StaysExact(ts: seq<Endpoint>, o: Connector)
    ensures Revise(ts, o).Some? <==> Stays(o, ts)
    ensures Revise(ts, o).Some? ==> Revise(ts, o).value.name == o.name
  {
    FindLast(ts, EndpointName, o.name);
    if Revise(ts, o).Some? {
      var j: nat :| IsLast(ts, EndpointName, j) && ts[j] == Find(ts, EndpointName, o.name).value;
      assert CanStay(o, ts[j]);
    }
  }

  /** The old connectors that were adapted, by their places. */
  ghost predicate RevisedAt(ts: seq<Endpoint>, cs: seq<Connector>, at: seq<nat>) {
    PlacedAt(Revised(ts, cs), ts, cs, at)
  }

  ghost predicate PlacedAt(rs: seq<Connector>, ts: seq<Endpoint>, cs: seq<Connector>, at: seq<nat>) {
    && |at| == |rs| && Increasing(at)
    && (forall m :: 0 <= m < |at| ==> at[m] < |cs| && Stays(cs[at[m]], ts) && rs[m].name == cs[at[m]].name)
    && (forall i: nat :: i < |cs| && Stays(cs[i], ts) ==> i in at)
  }

  lemma {:induction false} RevisedPlaces(ts: seq<Endpoint>, cs: seq<Connector>) returns (at: seq<nat>)
    ensures RevisedAt(ts, cs, at)
  {
    hide Revise, Stays;
    at := [];
    if cs != [] {
      var n: nat := |cs| - 1;
      at := RevisedPlaces(ts, cs[..n]);
      at := RevisedMore(ts, cs, at);
    }
  }

  lemma RevisedMore(ts: seq<Endpoint>, cs: seq<Connector>, before: seq<nat>) returns (at: seq<nat>)
    requires cs != [] && RevisedAt(ts, cs[..|cs| - 1], before)
    ensures RevisedAt(ts, cs, at)
  {
    hide Revise, Stays, PlacedAt;
    var n: nat := |cs| - 1;
    StaysExact(ts, cs[n]);
    match Revise(ts, cs[n]) {
      case None =>
        at := before;
        assert Revised(ts, cs) == Revised(ts, cs[..n]);
        PlacedSame(Revised(ts, cs[..n]), ts, cs, before);
      case Some(r) =>
        at := before + [n];
        assert Revised(ts, cs) == Revised(ts, cs[..n]) + [r];
        PlacedMore(Revised(ts, cs[..n]), r, ts, cs, before);
    }
  }

  lemma PlacedSame(rs: seq<Connector>, ts: seq<Endpoint>, cs: seq<Connector>, at: seq<nat>)
    requires cs != [] && PlacedAt(rs, ts, cs[..|cs| - 1], at) && !Stays(cs[|cs| - 1], ts)
    ensures PlacedAt(rs, ts, cs, at)
  {
    hide Stays;
    var n := |cs| - 1;
    assert forall i :: 0 <= i < n ==> cs[..n][i] == cs[i];
  }

  lemma PlacedMore(rs: seq<Connector>, r: Connector, ts: seq<Endpoint>, cs: seq<Connector>, at: seq<nat>)
    requires cs != [] && PlacedAt(rs, ts, cs[..|cs| - 1], at) && Stays(cs[|cs| - 1], ts) && r.name == cs[|cs| - 1].name
    ensures PlacedAt(rs + [r], ts, cs, at + [|cs| - 1])
  {
    hide Stays;
    var n := |cs| - 1;
    assert forall i :: 0 <= i < n ==> cs[..n][i] == cs[i];
  }

  lemma KeptPlaces(ts: seq<Endpoint>, cs: seq<Connector>) returns (places: seq<nat>)
    ensures ContinuedInOrder(Kept(ts, cs), ts, cs, places)
  {
    hide Revise, Stays, Revised;
    var rs := Revised(ts, cs);
    var at := RevisedPlaces(ts, cs);
    var first := CollectOrder(rs, NameOf);
    places := seq(|first|, m requires 0 <= m < |first| => at[first[m]]);
    forall m | 0 <= m < |first| ensures FirstStaying(ts, cs, places[m], Kept(ts, cs)[m].name) {
      assert forall l :: 0 <= l < first[m] ==> NameOf(rs[l]) != NameOf(rs[first[m]]);
      forall j: nat | j < places[m] && Stays(cs[j], ts) ensures cs[j].name != Kept(ts, cs)[m].name {
        var l :| 0 <= l < |at| && at[l] == j;
        assert l < first[m];
      }
    }
  }

  /** New connectors by the places of their names. */
  ghost predicate NamedAt(cs: seq<Connector>, ts: seq<Endpoint>, kept: seq<Connector>, places: seq<nat>) {
    && |places| == |cs| && Increasing(places)
    && (forall m :: 0 <= m < |cs| ==> IsFirst(ts, EndpointName, places[m]) && ts[places[m]].name == cs[m].name)
    && (forall i :: 0 <= i < |ts| && ts[i].name.Some? && !Has(kept, ts[i].name) ==> exists m :: 0 <= m < |cs| && cs[m].name == ts[i].name)
  }

  lemma {:induction false} InsertPlace<T, K>(d: seq<T>, x: T, key: T -> K) returns (m: nat)
    ensures m <= |d| && Insert(d, x, key) == if m < |d| then d[m := x] else d + [x]
    ensures if m < |d| then key(d[m]) == key(x) else forall i :: 0 <= i < |d| ==> key(d[i]) != key(x)
  {
    m := 0;
    if d != [] && key(d[0]) != key(x) {
      m := InsertPlace(d[1..], x, key);
      m := m + 1;
      assert d == [d[0]] + d[1..];
      assert forall i :: 0 < i < |d| ==> d[i] == d[1..][i - 1];
    }
  }

  /** The last endpoint adds a connector, in place m. */
  lemma AddStep(ts: seq<Endpoint>, kept: seq<Connector>, operatorId: Uuid, firstId: Uuid) returns (c: Connector, m: nat)
    requires ts != [] && ts[|ts| - 1].name.Some? && !Has(kept, ts[|ts| - 1].name)
    ensures var a, a' := Add(ts[..|ts| - 1], kept, operatorId, firstId), Add(ts, kept, operatorId, firstId);
      && c.name == ts[|ts| - 1].name && c.id == a.nextId < a'.nextId && m <= |a.connectors|
      && a'.connectors == (if m < |a.connectors| then a.connectors[m := c] else a.connectors + [c])
      && if m < |a.connectors| then a.connectors[m].name == c.name
         else forall i :: 0 <= i < |a.connectors| ==> a.connectors[i].name != c.name
  {
    var a, t := Add(ts[..|ts| - 1], kept, operatorId, firstId), ts[|ts| - 1];
    c := Connector(a.nextId, t.name, t.dataType, t.slot, !KindOf(t.slot).OPTIONAL?);
    m := InsertPlace(a.connectors, c, NameOf);
  }

  lemma AddSkip(ts: seq<Endpoint>, kept: seq<Connector>, operatorId: Uuid, firstId: Uuid)
    requires ts != [] && (ts[|ts| - 1].name.None? || Has(kept, ts[|ts| - 1].name))
    ensures Add(ts, kept, operatorId, firstId) == Add(ts[..|ts| - 1], kept, operatorId, firstId)
  {
  }

  lemma FirstLater(ts: seq<Endpoint>, i: nat)
    requires ts != [] && IsFirst(ts[..|ts| - 1], EndpointName, i)
    ensures IsFirst(ts, EndpointName, i)
  {
  }

  lemma {:induction false} AddPlaces(ts: seq<Endpoint>, kept: seq<Connector>, operatorId: Uuid, firstId: Uuid) returns (places: seq<nat>)
    ensures NamedAt(Add(ts, kept, operatorId, firstId).connectors, ts, kept, places)
  {
    places := [];
    if ts != [] {
      hide Add, Has, IsFirst, NamedAt;
      var init, t := ts[..|ts| - 1], ts[|ts| - 1];
      places := AddPlaces(init, kept, operatorId, firstId);
      var cs := Add(init, kept, operatorId, firstId).connectors;
      if t.name.Some? && !Has(kept, t.name) {
        var c, m := AddStep(ts, kept, operatorId, firstId);
        places := NamedMore(cs, c, m, ts, kept, places);
      } else {
        AddSkip(ts, kept, operatorId, firstId);
        NamedSkip(cs, ts, kept, places);
      }
    }
  }

  lemma NamedSkip(cs: seq<Connector>, ts: seq<Endpoint>, kept: seq<Connector>, places: seq<nat>)
    requires ts != [] && NamedAt(cs, ts[..|ts| - 1], kept, places) && (ts[|ts| - 1].name.None? || Has(kept, ts[|ts| - 1].name))
    ensures NamedAt(cs, ts, kept, places)
  {
    hide Has;
    assert ts == ts[..|ts| - 1] + [ts[|ts| - 1]];
    forall m | 0 <= m < |cs| ensures IsFirst(ts, EndpointName, places[m]) {
      FirstLater(ts, places[m]);
    }
  }

  lemma NamedMore(cs: seq<Connector>, c: Connector, m: nat, ts: seq<Endpoint>, kept: seq<Connector>, places: seq<nat>) returns (places': seq<nat>)
    requires ts != [] && NamedAt(cs, ts[..|ts| - 1], kept, places) && m <= |cs| && c.name == ts[|ts| - 1].name
    requires c.name.Some? && !Has(kept, c.name)
    requires if m < |cs| then cs[m].name == c.name else forall i :: 0 <= i < |cs| ==> cs[i].name != c.name
    ensures NamedAt(if m < |cs| then cs[m := c] else cs + [c], ts, kept, places')
  {
    hide Has;
    var n: nat := |ts| - 1;
    var cs' := if m < |cs| then cs[m := c] else cs + [c];
    places' := if m < |cs| then places else places + [n];
    if m == |cs| {
      assert IsFirst(ts, EndpointName, n) by {
        forall j | 0 <= j < n ensures ts[j].name != c.name {
          assert ts[..n][j] == ts[j];
        }
      }
    }
    forall l | 0 <= l < |cs'| ensures IsFirst(ts, EndpointName, places'[l]) && ts[places'[l]].name == cs'[l].name {
      if l < |cs| {
        FirstLater(ts, places[l]);
      }
    }
    forall i | 0 <= i < |ts| && ts[i].name.Some? && !Has(kept, ts[i].name) ensures exists l :: 0 <= l < |cs'| && cs'[l].name == ts[i].name {
      if i < n {
        assert ts[..n][i] == ts[i];
        var l :| 0 <= l < |cs| && cs[l].name == ts[i].name;
        assert cs'[l].name == ts[i].name;
      } else {
        assert cs'[m].name == c.name;
      }
    }
  }

  lemma {:induction false} AddIds(ts: seq<Endpoint>, kept: seq<Connector>, operatorId: Uuid, firstId: Uuid)
    ensures var cs := Add(ts, kept, operatorId, firstId).connectors;
      && (forall m :: 0 <= m < |cs| ==> cs[m].id < Add(ts, kept, operatorId, firstId).nextId)
      && (forall m, n :: 0 <= m < n < |cs| ==> cs[m].id != cs[n].id)
  {
    if ts != [] {
      var t := ts[|ts| - 1];
      AddIds(ts[..|ts| - 1], kept, operatorId, firstId);
      if t.name.Some? && !Has(kept, t.name) {
        var c, m := AddStep(ts, kept, operatorId, firstId);
        hide Add;
      }
    }
  }

  lemma AddedPlaces(ts: seq<Endpoint>, cs: seq<Connector>, operatorId: Uuid, firstId: Uuid) returns (places: seq<nat>)
    ensures NewInOrder(Add(ts, Kept(ts, cs), operatorId, firstId).connectors, ts, cs, places, firstId)
  {
    hide Kept, Add, Continued;
    var kept := Kept(ts, cs);
    var added := Add(ts, kept, operatorId, firstId).connectors;
    places := AddPlaces(ts, kept, operatorId, firstId);
    AddIds(ts, kept, operatorId, firstId);
    AddConnectors(ts, kept, operatorId, firstId);
    forall m | 0 <= m < |added| ensures added[m].id >= firstId && !Continued(ts, cs, added[m].name) {
      assert added[m] in added;
      ContinuedExact(ts, cs, added[m].name);
    }
  }

  /** The connectors of an upgraded operator are those that go on, in their order, and then the new ones in
      the order of the revision; inputs with the required ones first. */
  lemma UpgradedOrder(v: OperatorView, t: Trafo, firstId: Uuid)
    returns (kept: seq<Connector>, added: seq<Connector>, places: seq<nat>, newPlaces: seq<nat>)
    ensures Upgraded(v, t, firstId).inputs == Order(kept + added, KindOfConnector)
    ensures ContinuedInOrder(kept, t.inputs, v.inputs, places) && NewInOrder(added, t.inputs, v.inputs, newPlaces, firstId)
  {
    kept, added := Kept(t.inputs, v.inputs), AddedInputs(v, t, firstId).connectors;
    places := KeptPlaces(t.inputs, v.inputs);
    newPlaces := AddedPlaces(t.inputs, v.inputs, v.id, firstId);
  }

  lemma UpgradedOutputOrder(v: OperatorView, t: Trafo, firstId: Uuid)
    returns (kept: seq<Connector>, added: seq<Connector>, places: seq<nat>, newPlaces: seq<nat>)
    ensures Upgraded(v, t, firstId).outputs == kept + added
    ensures ContinuedInOrder(kept, t.outputs, v.outputs, places) && NewInOrder(added, t.outputs, v.outputs, newPlaces, firstId)
  {
    kept, added := Kept(t.outputs, v.outputs), AddedOutputs(v, t, firstId).connectors;
    places := KeptPlaces(t.outputs, v.outputs);
    var next := AddedInputs(v, t, firstId).nextId;
    AddConnectors(t.inputs, Kept(t.inputs, v.inputs), v.id, firstId);
    newPlaces := AddedPlaces(t.outputs, v.outputs, v.id, next);
  }

  // ----- ids -----

  /** A connector of an operator that was upgraded to t and does not continue an old one. */
  ghost predicate IsNewAt(v: OperatorView, v': OperatorView, t: Trafo, c: Connector) {
    || (c in v'.inputs && !Continued(t.inputs, v.inputs, c.name))
    || (c in v'.outputs && !Continued(t.outputs, v.outputs, c.name))
  }

  lemma AddedId(ts: seq<Endpoint>, cs: seq<Connector>, operatorId: Uuid, firstId: Uuid, c: Connector)
    requires c in Kept(ts, cs) + Add(ts, Kept(ts, cs), operatorId, firstId).connectors && !Continued(ts, cs, c.name)
    ensures firstId <= c.id < Add(ts, Kept(ts, cs), operatorId, firstId).nextId
  {
    hide Kept, Add, Continued;
    AddConnectors(ts, Kept(ts, cs), operatorId, firstId);
    ContinuedExact(ts, cs, c.name);
  }

  lemma UpgradedNewIds(v: OperatorView, t: Trafo, firstId: Uuid)
    ensures forall c :: IsNewAt(v, Upgraded(v, t, firstId), t, c) ==> firstId <= c.id < AddedOutputs(v, t, firstId).nextId
    ensures firstId <= AddedOutputs(v, t, firstId).nextId
  {
    hide Kept, Add, Continued, Order;
    var v', middle := Upgraded(v, t, firstId), AddedInputs(v, t, firstId).nextId;
    AddContents(t.inputs, Kept(t.inputs, v.inputs), v.id, firstId);
    AddContents(t.outputs, Kept(t.outputs, v.outputs), v.id, middle);
    OrderElements(Kept(t.inputs, v.inputs) + AddedInputs(v, t, firstId).connectors, KindOfConnector);
    forall c | IsNewAt(v, v', t, c) ensures firstId <= c.id < AddedOutputs(v, t, firstId).nextId {
      if c in v'.inputs && !Continued(t.inputs, v.inputs, c.name) {
        AddedId(t.inputs, v.inputs, v.id, firstId, c);
      } else {
        AddedId(t.outputs, v.outputs, v.id, middle, c);
      }
    }
  }

  ghost predicate NewInRun(f: Flow, g: Flow, r: Request, ts: seq<Turn>, k: nat, c: Connector) {
    && k < |f.operators| == |g.operators| && HasTurn(ts, k) && Choose(f.operators[k], r).UpgradeTo?
    && IsNewAt(f.operators[k], g.operators[k], Choose(f.operators[k], r).trafo, c)
  }

  /** No id is issued to connectors of two operators. */
  lemma {:induction false} RunNewIds(f: Flow, r: Request, ts: seq<Turn>, firstId: Uuid)
    requires InTurn(ts, |f.operators|) && Run(f, r, ts, firstId).Some?
    ensures var (g, nextId) := Run(f, r, ts, firstId).value;
      && firstId <= nextId && (forall k, c :: NewInRun(f, g, r, ts, k, c) ==> firstId <= c.id < nextId)
      && (forall k, m, c, d :: k < m && NewInRun(f, g, r, ts, k, c) && NewInRun(f, g, r, ts, m, d) ==> c.id != d.id)
  {
    hide Choose, HasTurn, InTurn, IsNewAt, Upgraded, UpgradedSide, UpgradedLinks, FixConstants, AddedOutputs;
    if ts == [] {
      NoTurns();
    } else {
      var init, m := ts[..|ts| - 1], ts[|ts| - 1].index;
      InTurnInit(ts, |f.operators|);
      var (g, nextId) := Run(f, r, init, firstId).value;
      RunNewIds(f, r, init, firstId);
      RunOthers(f, r, init, firstId);
      var (h, next) := Run(f, r, ts, firstId).value;
      match Choose(f.operators[m], r) {
        case UpgradeTo(t) =>
          UpgradedNewIds(f.operators[m], t, nextId);
          assert forall k, c :: NewInRun(f, h, r, ts, k, c) ==> if k == m then nextId <= c.id < next else NewInRun(f, g, r, init, k, c);
        case Skip =>
          assert forall k, c :: NewInRun(f, h, r, ts, k, c) ==> NewInRun(f, g, r, init, k, c);
        case KeyError =>
      }
    }
  }
}
