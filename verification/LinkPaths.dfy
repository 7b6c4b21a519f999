/** The links of a workflow after one of its operators was upgraded: which are kept, and where their
    paths meet the operator. */
module LinkPaths {
  import opened Wrappers
  import opened IOTypes
  import opened OrderedDict
  import opened InterfaceReconciliation
  import opened Sequences

  /** A link at some moment. The path is empty or leads from the start over some vertices to the end. */
  datatype LinkView = LinkView(start: Vertex, end: Vertex, path: seq<Position>)

  /** All data types still fit strictly. */
  predicate FitsInto(start: Vertex, end: Vertex, inputs: seq<Connector>) {
    var i := Find(inputs, NameOf, end.connectorName);
    i.Some? && start.dataType == end.dataType && end.dataType == i.value.dataType
  }

  predicate FitsOutOf(start: Vertex, end: Vertex, outputs: seq<Connector>) {
    var o := Find(outputs, NameOf, start.connectorName);
    o.Some? && end.dataType == start.dataType && start.dataType == o.value.dataType
  }

  function KeepsInto(operatorId: Uuid, inputs: seq<Connector>): LinkView -> bool {
    (l: LinkView) => l.end.connectorId != operatorId || FitsInto(l.start, l.end, inputs)
  }

  function KeepsOutOf(operatorId: Uuid, outputs: seq<Connector>): LinkView -> bool {
    (l: LinkView) => l.start.connectorId != operatorId || FitsOutOf(l.start, l.end, outputs)
  }

  predicate IsShown(c: Connector) {
    (KindOf(c.slot).REQUIRED? || c.exposed) && c.name.Some?
  }

  /** The connectors drawn at an operator, from top to bottom. */
  function Shown(cs: seq<Connector>): seq<Connector> {
    Collect(Filter(cs, IsShown), NameOf)
  }

  /** The height at which links meet a shown connector. */
  function CenterY(operator: Position, index: nat): real {
    operator.y + 50.0 + 10.0 + 20.0 / 2.0 + index as real * (20.0 + 10.0)
  }

  function SetEnd(path: seq<Position>, y: real): seq<Position> {
    if path == [] then [] else path[..|path| - 1] + [Position(path[|path| - 1].x, y)]
  }

  function SetStart(path: seq<Position>, y: real): seq<Position> {
    if path == [] then [] else [Position(path[0].x, y)] + path[1..]
  }

  predicate Into(l: LinkView, operatorId: Uuid, name: Option<Name>) {
    l.end.operator == Some(operatorId) && l.end.connectorName == name
  }

  predicate OutOf(l: LinkView, operatorId: Uuid, name: Option<Name>) {
    l.start.operator == Some(operatorId) && l.start.connectorName == name
  }

  /** The dictionary of the links into an operator by input name holds the last one for each name. */
  function LastInto(ls: seq<LinkView>, operatorId: Uuid, name: Option<Name>): (i: Option<nat>)
    ensures i.Some? ==> i.value < |ls| && Into(ls[i.value], operatorId, name)
  {
    if ls == [] then None
    else if Into(ls[|ls| - 1], operatorId, name) then Some(|ls| - 1)
    else LastInto(ls[..|ls| - 1], operatorId, name)
  }

  function FixEnds(ls: seq<LinkView>, operatorId: Uuid, shown: seq<Connector>, position: Position): (r: seq<LinkView>)
    ensures |r| == |ls| && forall i :: 0 <= i < |ls| ==> r[i].start == ls[i].start && r[i].end == ls[i].end
  {
    if shown == [] then ls
    else
      var k := |shown| - 1;
      var r := FixEnds(ls, operatorId, shown[..k], position);
      match LastInto(r, operatorId, shown[k].name)
      case None => r
      case Some(i) => r[i := r[i].(path := SetEnd(r[i].path, CenterY(position, k)))]
  }

  function FixStart(l: LinkView, operatorId: Uuid, name: Option<Name>, y: real): LinkView {
    if OutOf(l, operatorId, name) then l.(path := SetStart(l.path, y)) else l
  }

  function FixStarts(ls: seq<LinkView>, operatorId: Uuid, shown: seq<Connector>, position: Position): (r: seq<LinkView>)
    ensures |r| == |ls| && forall i :: 0 <= i < |ls| ==> r[i].start == ls[i].start && r[i].end == ls[i].end
  {
    if shown == [] then ls
    else
      var k := |shown| - 1;
      var r := FixStarts(ls, operatorId, shown[..k], position);
      seq(|r|, i requires 0 <= i < |r| => FixStart(r[i], operatorId, shown[k].name, CenterY(position, k)))
  }

  lemma FixNothing(ls: seq<LinkView>, operatorId: Uuid, shown: seq<Connector>, position: Position)
    ensures FixEnds(ls, operatorId, shown[..0], position) == FixStarts(ls, operatorId, shown[..0], position) == ls
  {
  }

  lemma FixEndsNext(ls: seq<LinkView>, operatorId: Uuid, shown: seq<Connector>, position: Position, k: nat)
    requires k < |shown|
    ensures var r := FixEnds(ls, operatorId, shown[..k], position);
      FixEnds(ls, operatorId, shown[..k + 1], position) ==
        match LastInto(r, operatorId, shown[k].name)
        case None => r
        case Some(i) => r[i := r[i].(path := SetEnd(r[i].path, CenterY(position, k)))]
  {
    assert shown[..k + 1][..k] == shown[..k];
  }

  lemma FixStartsNext(ls: seq<LinkView>, operatorId: Uuid, shown: seq<Connector>, position: Position, k: nat)
    requires k < |shown|
    ensures var r := FixStarts(ls, operatorId, shown[..k], position);
      FixStarts(ls, operatorId, shown[..k + 1], position) ==
      seq(|r|, i requires 0 <= i < |r| => FixStart(r[i], operatorId, shown[k].name, CenterY(position, k)))
  {
    assert shown[..k + 1][..k] == shown[..k];
  }

  function UpgradedLinks(ls: seq<LinkView>, v: OperatorView): seq<LinkView> {
    var into := Filter(ls, KeepsInto(v.id, v.inputs));
    var fixed := FixEnds(into, v.id, Shown(v.inputs), v.position);
    var outOf := Filter(fixed, KeepsOutOf(v.id, v.outputs));
    FixStarts(outOf, v.id, Shown(v.outputs), v.position)
  }

  lemma {:induction false} SameLastInto(ls: seq<LinkView>, ls': seq<LinkView>, operatorId: Uuid, name: Option<Name>)
    requires |ls| == |ls'| && forall i :: 0 <= i < |ls| ==> ls'[i].end == ls[i].end
    ensures LastInto(ls, operatorId, name) == LastInto(ls', operatorId, name)
  {
    if ls != [] {
      SameLastInto(ls[..|ls| - 1], ls'[..|ls'| - 1], operatorId, name);
    }
  }

  lemma FixEndsStep(ls: seq<LinkView>, operatorId: Uuid, shown: seq<Connector>, position: Position, i: nat)
    requires i < |ls| && shown != []
    ensures var k := |shown| - 1;
      var path := FixEnds(ls, operatorId, shown[..k], position)[i].path;
      FixEnds(ls, operatorId, shown, position)[i].path ==
        if LastInto(ls, operatorId, shown[k].name) == Some(i) then SetEnd(path, CenterY(position, k)) else path
  {
    hide SetEnd, CenterY;
    SameLastInto(ls, FixEnds(ls, operatorId, shown[..|shown| - 1], position), operatorId, shown[|shown| - 1].name);
  }

  lemma {:induction false} FixEndsMiss(ls: seq<LinkView>, operatorId: Uuid, shown: seq<Connector>, position: Position, i: nat)
    requires i < |ls|
    requires forall k :: 0 <= k < |shown| ==> LastInto(ls, operatorId, shown[k].name) != Some(i)
    ensures FixEnds(ls, operatorId, shown, position)[i].path == ls[i].path
  {
    if shown != [] {
      FixEndsMiss(ls, operatorId, shown[..|shown| - 1], position, i);
      FixEndsStep(ls, operatorId, shown, position, i);
    }
  }

  /** The last link into each shown input gets its end at the height of that input. */
  lemma {:induction false} FixEndsHit(ls: seq<LinkView>, operatorId: Uuid, shown: seq<Connector>, position: Position, k: nat, i: nat)
    requires i < |ls| && DistinctKeys(shown, NameOf) && k < |shown|
    requires LastInto(ls, operatorId, shown[k].name) == Some(i)
    ensures FixEnds(ls, operatorId, shown, position)[i].path == SetEnd(ls[i].path, CenterY(position, k))
  {
    hide LastInto, FixEnds, SetEnd, CenterY;
    var n := |shown| - 1;
    FixEndsStep(ls, operatorId, shown, position, i);
    if k < n {
      assert NameOf(shown[k]) != NameOf(shown[n]);
      FixEndsHit(ls, operatorId, shown[..n], position, k, i);
    } else {
      forall j | 0 <= j < n ensures LastInto(ls, operatorId, shown[..n][j].name) != Some(i) {
        assert NameOf(shown[j]) != NameOf(shown[n]);
      }
      FixEndsMiss(ls, operatorId, shown[..n], position, i);
    }
  }

  /** Every link out of a shown output gets its start at the height of that output. */
  lemma {:induction false} FixStartsAt(ls: seq<LinkView>, operatorId: Uuid, shown: seq<Connector>, position: Position, i: nat)
    requires i < |ls| && DistinctKeys(shown, NameOf)
    ensures var l := FixStarts(ls, operatorId, shown, position)[i];
      && (forall k :: 0 <= k < |shown| && OutOf(ls[i], operatorId, shown[k].name) ==>
            l.path == SetStart(ls[i].path, CenterY(position, k)))
      && ((forall k :: 0 <= k < |shown| ==> !OutOf(ls[i], operatorId, shown[k].name)) ==> l.path == ls[i].path)
  {
    if shown != [] {
      var k := |shown| - 1;
      var init := shown[..k];
      FixStartsAt(ls, operatorId, init, position, i);
      assert forall j :: 0 <= j < k ==> init[j] == shown[j];
      if OutOf(ls[i], operatorId, shown[k].name) {
        forall j | 0 <= j < k ensures !OutOf(ls[i], operatorId, init[j].name) {
          assert NameOf(init[j]) != NameOf(shown[k]);
        }
      }
    }
  }

  // ----- which links are kept -----

  /** All data types fit strictly the inputs of the new revision. */
  predicate FitsInputsOf(t: Trafo, l: LinkView) {
    var e := Find(t.inputs, EndpointName, l.end.connectorName);
    l.end.connectorName.Some? && e.Some? && l.start.dataType == l.end.dataType && l.end.dataType == e.value.dataType
  }

  predicate FitsOutputsOf(t: Trafo, l: LinkView) {
    var e := Find(t.outputs, EndpointName, l.start.connectorName);
    l.start.connectorName.Some? && e.Some? && l.end.dataType == l.start.dataType && l.start.dataType == e.value.dataType
  }

  lemma InstanceType(cs: seq<Connector>, ts: seq<Endpoint>, name: Option<Name>)
    requires Instantiates(cs, ts)
    ensures Has(cs, name) <==> name.Some? && Find(ts, EndpointName, name).Some?
    ensures Has(cs, name) ==> Find(cs, NameOf, name).value.dataType == Find(ts, EndpointName, name).value.dataType
  {
    if Has(cs, name) {
      assert Conforms(Find(cs, NameOf, name).value, ts);
    }
  }

  /** The connectors of the upgraded operator are those of the revision, so the test can be made before. */
  lemma FitsUpgraded(l: LinkView, v: OperatorView, t: Trafo, firstId: Uuid)
    ensures FitsInto(l.start, l.end, Upgraded(v, t, firstId).inputs) <==> FitsInputsOf(t, l)
    ensures FitsOutOf(l.start, l.end, Upgraded(v, t, firstId).outputs) <==> FitsOutputsOf(t, l)
  {
    hide Upgraded;
    var v' := Upgraded(v, t, firstId);
    UpgradedIsInstance(v, t, firstId);
    InstanceType(v'.inputs, t.inputs, l.end.connectorName);
    InstanceType(v'.outputs, t.outputs, l.start.connectorName);
  }

  ghost predicate SameEnds(l: LinkView, l': LinkView) {
    l'.start == l.start && l'.end == l.end
  }

  /** Apart from paths, the links after an upgrade are those that both filters keep. */
  lemma UpgradedLinksExact(ls: seq<LinkView>, v: OperatorView)
    ensures forall l' :: l' in UpgradedLinks(ls, v) ==>
      exists l :: l in ls && SameEnds(l, l') && KeepsInto(v.id, v.inputs)(l) && KeepsOutOf(v.id, v.outputs)(l)
    ensures forall l :: l in ls && KeepsInto(v.id, v.inputs)(l) && KeepsOutOf(v.id, v.outputs)(l) ==>
      exists l' :: l' in UpgradedLinks(ls, v) && SameEnds(l, l')
  {
    hide FitsInto, FitsOutOf, Shown, FixEnds, FixStarts;
    var into := Filter(ls, KeepsInto(v.id, v.inputs));
    var fixed := FixEnds(into, v.id, Shown(v.inputs), v.position);
    var outOf := Filter(fixed, KeepsOutOf(v.id, v.outputs));
    var links := UpgradedLinks(ls, v);
    FilterElements(ls, KeepsInto(v.id, v.inputs));
    FilterElements(fixed, KeepsOutOf(v.id, v.outputs));
    forall l' | l' in links
      ensures exists l :: l in ls && SameEnds(l, l') && KeepsInto(v.id, v.inputs)(l) && KeepsOutOf(v.id, v.outputs)(l)
    {
      var i :| 0 <= i < |links| && links[i] == l';
      assert outOf[i] in fixed;
      var j :| 0 <= j < |fixed| && fixed[j] == outOf[i];
      assert into[j] in ls && SameEnds(into[j], l');
    }
    forall l | l in ls && KeepsInto(v.id, v.inputs)(l) && KeepsOutOf(v.id, v.outputs)(l)
      ensures exists l' :: l' in links && SameEnds(l, l')
    {
      var j :| 0 <= j < |into| && into[j] == l;
      assert fixed[j] in fixed && KeepsOutOf(v.id, v.outputs)(fixed[j]);
      var i :| 0 <= i < |outOf| && outOf[i] == fixed[j];
      assert links[i] in links && SameEnds(l, links[i]);
    }
  }

  /** What the documentation promises of each link: on the sides where it meets the operator, it fits. */
  ghost predicate LinkFits(l: LinkView, operatorId: Uuid, t: Trafo) {
    && (l.end.operator == Some(operatorId) ==> FitsInputsOf(t, l))
    && (l.start.operator == Some(operatorId) ==> FitsOutputsOf(t, l))
  }

  /** What happens: a link goes if it does not fit on a side where its connector has the operator's id. */
  ghost predicate Dropped(l: LinkView, operatorId: Uuid, t: Trafo) {
    || (!FitsInputsOf(t, l) && l.end.connectorId == operatorId)
    || (!FitsOutputsOf(t, l) && l.start.connectorId == operatorId)
  }

  lemma DependsOnEnds(l: LinkView, l': LinkView, operatorId: Uuid, t: Trafo)
    requires SameEnds(l, l')
    ensures LinkFits(l, operatorId, t) <==> LinkFits(l', operatorId, t)
  {
  }

  lemma DroppedExactly(l: LinkView, v: OperatorView, t: Trafo, firstId: Uuid)
    ensures var v' := Upgraded(v, t, firstId);
      KeepsInto(v'.id, v'.inputs)(l) && KeepsOutOf(v'.id, v'.outputs)(l) <==> !Dropped(l, v.id, t)
  {
    hide FitsInto, FitsOutOf, Upgraded, FitsInputsOf, FitsOutputsOf;
    UpgradedId(v, t, firstId);
    FitsUpgraded(l, v, t, firstId);
  }

  /** The filters look for the id of the operator among the ids of connectors. So all links fit after an
      upgrade exactly if each link that does not fit the new revision has, on a side where it does not,
      the id of the operator as the id of its connector. */
  lemma LinkPromiseExact(ls: seq<LinkView>, v: OperatorView, t: Trafo, firstId: Uuid)
    ensures (forall l :: l in UpgradedLinks(ls, Upgraded(v, t, firstId)) ==> LinkFits(l, v.id, t)) <==>
      (forall l :: l in ls && !LinkFits(l, v.id, t) ==> Dropped(l, v.id, t))
  {
    hide KeepsInto, KeepsOutOf, Upgraded, UpgradedLinks, LinkFits, Dropped, SameEnds;
    var v' := Upgraded(v, t, firstId);
    var links := UpgradedLinks(ls, v');
    UpgradedLinksExact(ls, v');
    if forall l :: l in links ==> LinkFits(l, v.id, t) {
      forall l | l in ls && !LinkFits(l, v.id, t) ensures Dropped(l, v.id, t) {
        DroppedExactly(l, v, t, firstId);
        if !Dropped(l, v.id, t) {
          var l' :| l' in links && SameEnds(l, l');
          DependsOnEnds(l, l', v.id, t);
        }
      }
    }
    if forall l :: l in ls && !LinkFits(l, v.id, t) ==> Dropped(l, v.id, t) {
      forall l' | l' in links ensures LinkFits(l', v.id, t) {
        var l :| l in ls && SameEnds(l, l') && KeepsInto(v'.id, v'.inputs)(l) && KeepsOutOf(v'.id, v'.outputs)(l);
        DroppedExactly(l, v, t, firstId);
        DependsOnEnds(l, l', v.id, t);
      }
    }
  }

  /** A link into an input that the new revision does not have survives the upgrade. */
  lemma DanglingLinkSurvives()
    ensures exists ls, v, t, l ::
              l in UpgradedLinks(ls, Upgraded(v, t, 0)) && l.end.operator == Some(v.id) &&
              InstanceOf(Upgraded(v, t, 0), t) && !Has(Upgraded(v, t, 0).inputs, l.end.connectorName)
  {
    var v := OperatorView(1, 2, 3, false, RELEASED, 4, [Connector(8, Some(9), INT, Input(REQUIRED, None), true)], [], Position(0.0, 0.0));
    var t := Trafo(10, 3, false, RELEASED, 5, [], []);
    var l := LinkView(Vertex(Some(5), 6, Some(7), INT), Vertex(Some(1), 8, Some(9), INT), []);
    var v' := Upgraded(v, t, 0);
    UpgradedIsInstance(v, t, 0);
    assert !Has(v'.inputs, Some(9)) by {
      assert forall c :: c in v'.inputs ==> Conforms(c, t.inputs);
    }
    FixedLink([l], v', 0);
    assert UpgradedLinks([l], v')[0] == l;
    assert l in UpgradedLinks([l], v') && l.end.operator == Some(v.id);
  }

  /** Connectors never have the id of an operator. */
  ghost predicate IdsApart(ls: seq<LinkView>, operatorId: Uuid) {
    forall l :: l in ls ==> l.start.connectorId != operatorId && l.end.connectorId != operatorId
  }

  /** Then all links stay. */
  lemma UpgradedLinksStay(ls: seq<LinkView>, v: OperatorView)
    requires IdsApart(ls, v.id)
    ensures UpgradedLinks(ls, v) == FixStarts(FixEnds(ls, v.id, Shown(v.inputs), v.position), v.id, Shown(v.outputs), v.position)
  {
    FilterAll(ls, KeepsInto(v.id, v.inputs));
    var fixed := FixEnds(ls, v.id, Shown(v.inputs), v.position);
    forall l | l in fixed ensures KeepsOutOf(v.id, v.outputs)(l) {
      var i :| 0 <= i < |fixed| && fixed[i] == l;
      assert ls[i] in ls;
    }
    FilterAll(fixed, KeepsOutOf(v.id, v.outputs));
  }

  /** The link runs as before, except perhaps for the heights of its two ends. */
  ghost predicate SameButHeights(l: LinkView, l': LinkView) {
    && l'.start == l.start && l'.end == l.end && |l'.path| == |l.path|
    && (forall j :: 0 <= j < |l.path| ==> l'.path[j].x == l.path[j].x)
    && (forall j :: 0 < j < |l.path| - 1 ==> l'.path[j] == l.path[j])
  }

  /** If link i is the (last) link into a shown input, its path ends at that input. */
  ghost predicate EndPlaced(ls: seq<LinkView>, i: nat, path: seq<Position>, v: OperatorView) {
    forall k :: 0 <= k < |Shown(v.inputs)| && LastInto(ls, v.id, Shown(v.inputs)[k].name) == Some(i) && |path| >= 2 ==>
      path[|path| - 1].y == CenterY(v.position, k)
  }

  /** If link i starts at a shown output, so does its path. */
  ghost predicate StartPlaced(ls: seq<LinkView>, i: nat, path: seq<Position>, v: OperatorView)
    requires i < |ls|
  {
    forall k :: 0 <= k < |Shown(v.outputs)| && OutOf(ls[i], v.id, Shown(v.outputs)[k].name) && |path| >= 2 ==>
      path[0].y == CenterY(v.position, k)
  }

  lemma ShownDistinct(cs: seq<Connector>)
    ensures DistinctKeys(Shown(cs), NameOf)
  {
    CollectElements(Filter(cs, IsShown), NameOf);
  }

  /** Fixing the links of an operator moves only the ends that meet it. */
  lemma FixedLink(ls: seq<LinkView>, v: OperatorView, i: nat)
    requires i < |ls| && IdsApart(ls, v.id)
    ensures |UpgradedLinks(ls, v)| == |ls| && SameButHeights(ls[i], UpgradedLinks(ls, v)[i])
    ensures var path := UpgradedLinks(ls, v)[i].path;
      && EndPlaced(ls, i, path, v) && StartPlaced(ls, i, path, v)
      && (ls[i].end.operator != Some(v.id) && |path| >= 2 ==> path[|path| - 1] == ls[i].path[|path| - 1])
      && (ls[i].start.operator != Some(v.id) && |path| >= 2 ==> path[0] == ls[i].path[0])
  {
    hide CenterY, Shown, FixEnds, FixStarts, UpgradedLinks;
    UpgradedLinksStay(ls, v);
    var ends := FixEnds(ls, v.id, Shown(v.inputs), v.position);
    FixedEnd(ls, v, i);
    FixedStart(ends, v, i);
  }

  lemma MovedEnd(l: LinkView, y: real)
    ensures var path := SetEnd(l.path, y);
      && SameButHeights(l, l.(path := path))
      && (|path| >= 2 ==> path[|path| - 1].y == y && path[0] == l.path[0])
  {
  }

  lemma FixedEnd(ls: seq<LinkView>, v: OperatorView, i: nat)
    requires i < |ls|
    ensures var l := FixEnds(ls, v.id, Shown(v.inputs), v.position)[i];
      && SameButHeights(ls[i], l) && EndPlaced(ls, i, l.path, v)
      && (|l.path| >= 2 ==> l.path[0] == ls[i].path[0])
      && (ls[i].end.operator != Some(v.id) ==> l.path == ls[i].path)
  {
    hide CenterY, Shown, LastInto, FixEnds, SetEnd;
    var shown := Shown(v.inputs);
    ShownDistinct(v.inputs);
    if k: nat :| k < |shown| && LastInto(ls, v.id, shown[k].name) == Some(i) {
      FixEndsHit(ls, v.id, shown, v.position, k, i);
      MovedEnd(ls[i], CenterY(v.position, k));
      forall j: nat | j < |shown| && LastInto(ls, v.id, shown[j].name) == Some(i) ensures j == k {
        assert NameOf(shown[j]) == NameOf(shown[k]);
      }
    } else {
      FixEndsMiss(ls, v.id, shown, v.position, i);
    }
  }

  lemma MovedStart(l: LinkView, y: real)
    ensures var path := SetStart(l.path, y);
      && SameButHeights(l, l.(path := path))
      && (|path| >= 2 ==> path[0].y == y && path[|path| - 1] == l.path[|path| - 1])
  {
  }

  lemma FixedStart(ls: seq<LinkView>, v: OperatorView, i: nat)
    requires i < |ls|
    ensures var l := FixStarts(ls, v.id, Shown(v.outputs), v.position)[i];
      && SameButHeights(ls[i], l) && StartPlaced(ls, i, l.path, v)
      && (|l.path| >= 2 ==> l.path[|l.path| - 1] == ls[i].path[|l.path| - 1])
      && (ls[i].start.operator != Some(v.id) ==> l.path == ls[i].path)
  {
    hide CenterY, Shown, FixStarts, SetStart;
    var shown := Shown(v.outputs);
    ShownDistinct(v.outputs);
    FixStartsAt(ls, v.id, shown, v.position, i);
    if k: nat :| k < |shown| && OutOf(ls[i], v.id, shown[k].name) {
      MovedStart(ls[i], CenterY(v.position, k));
      forall j: nat | j < |shown| && OutOf(ls[i], v.id, shown[j].name) ensures j == k {
        assert NameOf(shown[j]) == NameOf(shown[k]);
      }
    }
  }

  ghost predicate SameVertices(ls: seq<LinkView>, ls': seq<LinkView>) {
    |ls'| == |ls| && forall i :: 0 <= i < |ls| ==> ls'[i].start == ls[i].start && ls'[i].end == ls[i].end
  }

  /** Where a link is to be placed depends only on the vertices of the links. */
  lemma PlacedTransfer(ls: seq<LinkView>, ls': seq<LinkView>, i: nat, path: seq<Position>, v: OperatorView)
    requires i < |ls| && SameVertices(ls, ls') && EndPlaced(ls', i, path, v) && StartPlaced(ls', i, path, v)
    ensures EndPlaced(ls, i, path, v) && StartPlaced(ls, i, path, v)
  {
    hide CenterY, Shown, LastInto;
    forall name ensures LastInto(ls, v.id, name) == LastInto(ls', v.id, name) {
      SameLastInto(ls, ls', v.id, name);
    }
  }

  /** An end stays placed if it does not move, and only ends that meet the operator count. */
  lemma PlacedStays(ls: seq<LinkView>, i: nat, path: seq<Position>, path': seq<Position>, v: OperatorView)
    requires i < |ls| && |path'| == |path|
    requires ls[i].end.operator == Some(v.id) && |path| >= 2 ==> path'[|path| - 1] == path[|path| - 1]
    requires ls[i].start.operator == Some(v.id) && |path| >= 2 ==> path'[0] == path[0]
    requires EndPlaced(ls, i, path, v) && StartPlaced(ls, i, path, v)
    ensures EndPlaced(ls, i, path', v) && StartPlaced(ls, i, path', v)
  {
    hide CenterY, Shown;
  }

  lemma ApartTransfer(ls: seq<LinkView>, ls': seq<LinkView>, operatorId: Uuid)
    requires IdsApart(ls, operatorId) && SameVertices(ls, ls')
    ensures IdsApart(ls', operatorId)
  {
    forall l | l in ls' ensures l.start.connectorId != operatorId && l.end.connectorId != operatorId {
      var i :| 0 <= i < |ls'| && ls'[i] == l;
      assert ls[i] in ls;
    }
  }

  lemma UpgradedVertices(ls: seq<LinkView>, v: OperatorView)
    requires IdsApart(ls, v.id)
    ensures SameVertices(ls, UpgradedLinks(ls, v))
  {
    UpgradedLinksStay(ls, v);
  }

  /** What one upgrade does to link i, next to what an earlier one did to it. */
  lemma StepPaths(ls: seq<LinkView>, gs: seq<LinkView>, v': OperatorView, i: nat)
    requires SameVertices(ls, gs) && i < |ls| && IdsApart(ls, v'.id) && SameButHeights(ls[i], gs[i])
    ensures var hs := UpgradedLinks(gs, v');
      && |hs| == |ls| && SameButHeights(ls[i], hs[i])
      && EndPlaced(ls, i, hs[i].path, v') && StartPlaced(ls, i, hs[i].path, v')
      && (forall v: OperatorView {:trigger EndPlaced(ls, i, hs[i].path, v)} ::
            v.id != v'.id && EndPlaced(ls, i, gs[i].path, v) && StartPlaced(ls, i, gs[i].path, v) ==>
            EndPlaced(ls, i, hs[i].path, v) && StartPlaced(ls, i, hs[i].path, v))
  {
    hide EndPlaced, StartPlaced, UpgradedLinks;
    var hs := UpgradedLinks(gs, v');
    ApartTransfer(ls, gs, v'.id);
    FixedLink(gs, v', i);
    PlacedTransfer(ls, gs, i, hs[i].path, v');
    forall v: OperatorView | v.id != v'.id && EndPlaced(ls, i, gs[i].path, v) && StartPlaced(ls, i, gs[i].path, v)
      ensures EndPlaced(ls, i, hs[i].path, v) && StartPlaced(ls, i, hs[i].path, v)
    {
      PlacedStays(ls, i, gs[i].path, hs[i].path, v);
    }
  }
}
