/** The upgrade as it is done, in place: on a deep copy of the workflow, operators, links and the lists
    of the workflow are changed step by step. */
module WorkflowUpgrade {
  import opened Wrappers
  import opened IOTypes
  import opened InputOrdering
  import opened OrderedDict
  import opened InterfaceReconciliation
  import opened WorkflowEntries
  import opened LinkPaths
  import opened OperatorUpgrade
  import opened Sequences

  class Operator {
    const id: Uuid
    const position: Position
    var transformationId: Uuid
    var revisionGroupId: Uuid
    var isWorkflow: bool
    var state: State
    var versionTag: int
    var inputs: seq<Connector>
    var outputs: seq<Connector>

    constructor (v: OperatorView)
      ensures View() == v
    {
      id, position := v.id, v.position;
      transformationId, revisionGroupId, isWorkflow, state, versionTag := v.transformationId, v.revisionGroupId, v.isWorkflow, v.state, v.versionTag;
      inputs, outputs := v.inputs, v.outputs;
    }

    function View(): OperatorView
      reads this
    {
      OperatorView(id, transformationId, revisionGroupId, isWorkflow, state, versionTag, inputs, outputs, position)
    }
  }

  class Link {
    const start: Vertex
    const end: Vertex
    var path: seq<Position>

    constructor (l: LinkView)
      ensures View() == l
    {
      start, end, path := l.start, l.end, l.path;
    }

    function View(): LinkView
      reads this
    {
      LinkView(start, end, path)
    }
  }

  ghost function OperatorViews(os: seq<Operator>): (vs: seq<OperatorView>)
    reads os
    ensures |vs| == |os| && forall i :: 0 <= i < |os| ==> vs[i] == os[i].View()
  {
    if os == [] then [] else OperatorViews(os[..|os| - 1]) + [os[|os| - 1].View()]
  }

  ghost function LinkViews(ls: seq<Link>): (vs: seq<LinkView>)
    reads ls
    ensures |vs| == |ls| && forall i :: 0 <= i < |ls| ==> vs[i] == ls[i].View()
  {
    if ls == [] then [] else LinkViews(ls[..|ls| - 1]) + [ls[|ls| - 1].View()]
  }

  class Workflow {
    var operators: seq<Operator>
    var links: seq<Link>
    var constants: seq<Constant>
    var contentInputs: seq<Content>
    var contentOutputs: seq<Content>
    var ioInputs: seq<Endpoint>
    var ioOutputs: seq<Endpoint>
    var inputWirings: seq<Wiring>
    var outputWirings: seq<Wiring>
    ghost const linkSet: set<Link>  // all links the workflow ever had

    constructor (operators: seq<Operator>, links: seq<Link>, constants: seq<Constant>, inputs: Side, outputs: Side)
      ensures this.operators == operators && this.links == links && this.constants == constants
      ensures Inputs() == inputs && Outputs() == outputs && linkSet == set l | l in links
    {
      this.operators, this.links, this.constants := operators, links, constants;
      linkSet := set l | l in links;
      contentInputs, ioInputs, inputWirings := inputs.contents, inputs.io, inputs.wirings;
      contentOutputs, ioOutputs, outputWirings := outputs.contents, outputs.io, outputs.wirings;
    }

    function Inputs(): Side
      reads this`contentInputs, this`ioInputs, this`inputWirings
    {
      Side(contentInputs, ioInputs, inputWirings)
    }

    function Outputs(): Side
      reads this`contentOutputs, this`ioOutputs, this`outputWirings
    {
      Side(contentOutputs, ioOutputs, outputWirings)
    }

    /** Operators and links are not shared. */
    ghost predicate Valid()
      reads this`operators, this`links
    {
      Distinct(operators) && Distinct(links) && forall l :: l in links ==> l in linkSet
    }

    ghost function Abstract(): Flow
      reads this, operators, links
    {
      Flow(OperatorViews(operators), LinkViews(links), constants, Inputs(), Outputs())
    }
  }

  // ----- connectors of the operator -----

  /** The connectors of an operator that the new interface lets it keep, adapted. */
  method HandleOldOperatorConnectors(ts: seq<Endpoint>, cs: seq<Connector>) returns (kept: seq<Connector>)
    ensures kept == Kept(ts, cs)
  {
    var toKeep := [];
    for i := 0 to |cs|
      invariant toKeep == Revised(ts, cs[..i])
    {
      assert cs[..i + 1][..i] == cs[..i];
      var c := cs[i];
      if c.name.None? {
        continue;
      }
      var respective := Find(ts, EndpointName, c.name);
      if respective.None? {
        continue;
      }
      var t := respective.value;
      if t.dataType == c.dataType || t.dataType == ANY {
        c := c.(dataType := t.dataType);
        if KindOf(t.slot) != KindOf(c.slot) {
          c := c.(slot := t.slot, exposed := true);
        }
        toKeep := toKeep + [c];
      }
    }
    assert cs[..|cs|] == cs;
    kept := Collect(toKeep, NameOf);
  }

  /** New connectors, and the workflow inputs or outputs that come with them. */
  method HandleNewOperatorConnectors(ts: seq<Endpoint>, kept: seq<Connector>, operatorId: Uuid, firstId: Uuid) returns (a: Additions)
    ensures a == Add(ts, kept, operatorId, firstId)
  {
    var connectors, contents, nextId := [], [], firstId;
    for i := 0 to |ts|
      invariant Additions(connectors, contents, nextId) == Add(ts[..i], kept, operatorId, firstId)
    {
      assert ts[..i + 1][..i] == ts[..i];
      var t := ts[i];
      if t.name.None? {
        continue;
      }
      if !Has(kept, t.name) {
        var newId := nextId;
        nextId := nextId + 1;
        connectors := Insert(connectors, Connector(newId, t.name, t.dataType, t.slot, !KindOf(t.slot).OPTIONAL?), NameOf);
        if !KindOf(t.slot).OPTIONAL? {
          contents := contents + [Content(nextId, None, t.dataType, t.slot, operatorId, newId, t.name, ORIGIN)];
          nextId := nextId + 1;
        }
      }
    }
    assert ts[..|ts|] == ts;
    a := Additions(connectors, contents, nextId);
  }

  // ----- paths of links -----

  method LastLinkInto(links: seq<Link>, operatorId: Uuid, name: Option<Name>) returns (last: Option<nat>)
    ensures last == LastInto(LinkViews(links), operatorId, name)
  {
    last := None;
    for i := 0 to |links|
      invariant last == LastInto(LinkViews(links[..i]), operatorId, name)
    {
      assert links[..i + 1][..i] == links[..i];
      assert LinkViews(links[..i + 1])[..i] == LinkViews(links[..i]);
      if links[i].end.operator == Some(operatorId) && links[i].end.connectorName == name {
        last := Some(i);
      }
    }
    assert links[..|links|] == links;
  }

  method FixPathEndYPositions(links: seq<Link>, operator: Operator)
    requires Distinct(links)
    modifies links
    ensures LinkViews(links) == FixEnds(old(LinkViews(links)), operator.id, Shown(operator.inputs), operator.position)
  {
    hide LinkViews, CenterY, SetEnd, FixEnds, LastInto, Shown;
    var shown := Shown(operator.inputs);
    FixNothing(LinkViews(links), operator.id, shown, operator.position);
    for k := 0 to |shown|
      invariant LinkViews(links) == FixEnds(old(LinkViews(links)), operator.id, shown[..k], operator.position)
    {
      FixEndsNext(old(LinkViews(links)), operator.id, shown, operator.position, k);
      var i := LastLinkInto(links, operator.id, shown[k].name);
      if i.Some? {
        FixPathEnd(links, i.value, CenterY(operator.position, k));
      }
    }
    assert shown[..|shown|] == shown;
  }

  method FixPathEnd(links: seq<Link>, i: nat, y: real)
    requires Distinct(links) && i < |links|
    modifies links[i]
    ensures var before := old(LinkViews(links));
      LinkViews(links) == before[i := before[i].(path := SetEnd(before[i].path, y))]
  {
    hide LinkViews;
    var lnk := links[i];
    if |lnk.path| > 0 {
      var last := lnk.path[|lnk.path| - 1];
      lnk.path := lnk.path[..|lnk.path| - 1] + [Position(last.x, y)];
    }
  }

  method FixPathStartYPositions(links: seq<Link>, operator: Operator)
    requires Distinct(links)
    modifies links
    ensures LinkViews(links) == FixStarts(old(LinkViews(links)), operator.id, Shown(operator.outputs), operator.position)
  {
    hide LinkViews, CenterY, FixStart, FixStarts, Shown;
    var shown := Shown(operator.outputs);
    FixNothing(LinkViews(links), operator.id, shown, operator.position);
    for k := 0 to |shown|
      invariant LinkViews(links) == FixStarts(old(LinkViews(links)), operator.id, shown[..k], operator.position)
    {
      FixStartsNext(old(LinkViews(links)), operator.id, shown, operator.position, k);
      FixPathStarts(links, operator.id, shown[k].name, CenterY(operator.position, k));
    }
    assert shown[..|shown|] == shown;
  }

  /** All links out of one output; there may be several. */
  method FixPathStarts(links: seq<Link>, operatorId: Uuid, name: Option<Name>, y: real)
    requires Distinct(links)
    modifies links
    ensures var before := old(LinkViews(links));
      LinkViews(links) == seq(|before|, i requires 0 <= i < |before| => FixStart(before[i], operatorId, name, y))
  {
    for i := 0 to |links|
      invariant forall j :: 0 <= j < i ==> links[j].View() == FixStart(old(links[j].View()), operatorId, name, y)
      invariant forall j :: i <= j < |links| ==> links[j].View() == old(links[j].View())
    {
      var lnk := links[i];
      if lnk.start.operator == Some(operatorId) && lnk.start.connectorName == name {
        if |lnk.path| > 0 {
          lnk.path := [Position(lnk.path[0].x, y)] + lnk.path[1..];
        }
      }
    }
  }

  lemma {:induction false} FilterViews(ls: seq<Link>, keep: Link -> bool, keepView: LinkView -> bool)
    requires forall l :: l in ls ==> keep(l) == keepView(l.View())
    ensures LinkViews(Filter(ls, keep)) == Filter(LinkViews(ls), keepView)
  {
    hide LinkViews;
    if ls != [] {
      var init, x := ls[..|ls| - 1], ls[|ls| - 1];
      assert forall l :: l in init ==> l in ls;
      FilterViews(init, keep, keepView);
      assert LinkViews(ls)[..|ls| - 1] == LinkViews(init);
      assert LinkViews(Filter(ls, keep)) == LinkViews(Filter(init, keep)) + if keep(x) then [x.View()] else [];
    } else {
      assert LinkViews(ls) == [] && LinkViews(Filter(ls, keep)) == [];
    }
  }

  // ----- the upgrade -----

  /** Wirings do not know their types, so the previous io interface is looked at. */
  method FixInputs(workflow: Workflow, operatorId: Uuid, kept: seq<Connector>, added: seq<Content>)
    modifies workflow`contentInputs, workflow`ioInputs, workflow`inputWirings
    ensures workflow.Inputs() == UpgradedSide(old(workflow.Inputs()), operatorId, kept, added)
  {
    var originalIo := workflow.ioInputs;
    workflow.contentInputs := UpgradedContents(workflow.Inputs(), operatorId, kept, added);
    workflow.ioInputs := UpgradedIo(originalIo, workflow.contentInputs, added);
    workflow.inputWirings := UpgradedWirings(workflow.inputWirings, originalIo, workflow.ioInputs);
  }

  method FixOutputs(workflow: Workflow, operatorId: Uuid, kept: seq<Connector>, added: seq<Content>)
    modifies workflow`contentOutputs, workflow`ioOutputs, workflow`outputWirings
    ensures workflow.Outputs() == UpgradedSide(old(workflow.Outputs()), operatorId, kept, added)
  {
    var originalIo := workflow.ioOutputs;
    workflow.contentOutputs := UpgradedContents(workflow.Outputs(), operatorId, kept, added);
    workflow.ioOutputs := UpgradedIo(originalIo, workflow.contentOutputs, added);
    workflow.outputWirings := UpgradedWirings(workflow.outputWirings, originalIo, workflow.ioOutputs);
  }

  method RenewInputs(operator: Operator, t: Trafo, firstId: Uuid) returns (kept: seq<Connector>, added: Additions)
    modifies operator`inputs
    ensures kept == Kept(t.inputs, old(operator.inputs)) && added == Add(t.inputs, kept, operator.id, firstId)
    ensures operator.inputs == Order(kept + added.connectors, KindOfConnector)
  {
    kept := HandleOldOperatorConnectors(t.inputs, operator.inputs);
    added := HandleNewOperatorConnectors(t.inputs, kept, operator.id, firstId);
    operator.inputs := OrderOperatorInputs(kept + added.connectors, KindOfConnector);
  }

  /** The operator's inputs, then what refers to them: links, constants, workflow inputs, wirings, paths. */
  method UpgradeInputs(workflow: Workflow, operator: Operator, t: Trafo, firstId: Uuid) returns (nextId: Uuid)
    requires workflow.Valid()
    modifies operator`inputs, workflow.linkSet
    modifies workflow`links, workflow`constants, workflow`contentInputs, workflow`ioInputs, workflow`inputWirings
    ensures workflow.Valid()
    ensures var kept := Kept(t.inputs, old(operator.inputs));
      var a := Add(t.inputs, kept, operator.id, firstId);
      && nextId == a.nextId && operator.inputs == Order(kept + a.connectors, KindOfConnector)
      && workflow.Inputs() == UpgradedSide(old(workflow.Inputs()), operator.id, kept, a.contents)
    ensures workflow.constants == FixConstants(old(workflow.constants), operator.id, operator.inputs)
    ensures LinkViews(workflow.links) ==
      FixEnds(Filter(old(LinkViews(workflow.links)), KeepsInto(operator.id, operator.inputs)), operator.id, Shown(operator.inputs), operator.position)
  {
    hide LinkViews, FixEnds, Shown, KeepsInto, Kept, Add, Order, FixConstants, Filter, UpgradedSide, Distinct;
    var kept, added := RenewInputs(operator, t, firstId);
    nextId := added.nextId;
    FixLinksIntoOperator(workflow, operator);
    ghost var links := LinkViews(workflow.links);
    workflow.constants := FixConstants(workflow.constants, operator.id, operator.inputs);
    FixInputs(workflow, operator.id, kept, added.contents);
    assert LinkViews(workflow.links) == links;
    FixPathEndYPositions(workflow.links, operator);
  }

  method FixLinksIntoOperator(workflow: Workflow, operator: Operator)
    requires workflow.Valid()
    modifies workflow`links
    ensures workflow.Valid()
    ensures LinkViews(workflow.links) == Filter(old(LinkViews(workflow.links)), KeepsInto(operator.id, operator.inputs))
  {
    hide LinkViews, FitsInto;
    var operatorId, inputs := operator.id, operator.inputs;
    var keep := (l: Link) => l.end.connectorId != operatorId || FitsInto(l.start, l.end, inputs);
    FilterViews(workflow.links, keep, KeepsInto(operatorId, inputs));
    FilterDistinct(workflow.links, keep);
    FilterElements(workflow.links, keep);
    workflow.links := Filter(workflow.links, keep);
  }

  method UpgradeOutputs(workflow: Workflow, operator: Operator, t: Trafo, firstId: Uuid) returns (nextId: Uuid)
    requires workflow.Valid()
    modifies operator`outputs, workflow.linkSet
    modifies workflow`links, workflow`contentOutputs, workflow`ioOutputs, workflow`outputWirings
    ensures workflow.Valid()
    ensures var kept := Kept(t.outputs, old(operator.outputs));
      var a := Add(t.outputs, kept, operator.id, firstId);
      && nextId == a.nextId && operator.outputs == kept + a.connectors
      && workflow.Outputs() == UpgradedSide(old(workflow.Outputs()), operator.id, kept, a.contents)
    ensures LinkViews(workflow.links) ==
      FixStarts(Filter(old(LinkViews(workflow.links)), KeepsOutOf(operator.id, operator.outputs)), operator.id, Shown(operator.outputs), operator.position)
  {
    hide LinkViews, FixStarts, Shown, KeepsOutOf, Kept, Add, Filter, UpgradedSide;
    var kept := HandleOldOperatorConnectors(t.outputs, operator.outputs);
    var added := HandleNewOperatorConnectors(t.outputs, kept, operator.id, firstId);
    nextId := added.nextId;
    operator.outputs := kept + added.connectors;
    FixLinksOutOfOperator(workflow, operator);
    ghost var links := LinkViews(workflow.links);
    FixOutputs(workflow, operator.id, kept, added.contents);
    assert LinkViews(workflow.links) == links;
    FixPathStartYPositions(workflow.links, operator);
  }

  method FixLinksOutOfOperator(workflow: Workflow, operator: Operator)
    requires workflow.Valid()
    modifies workflow`links
    ensures workflow.Valid()
    ensures LinkViews(workflow.links) == Filter(old(LinkViews(workflow.links)), KeepsOutOf(operator.id, operator.outputs))
  {
    hide LinkViews, FitsOutOf;
    var operatorId, outputs := operator.id, operator.outputs;
    var keep := (l: Link) => l.start.connectorId != operatorId || FitsOutOf(l.start, l.end, outputs);
    FilterViews(workflow.links, keep, KeepsOutOf(operatorId, outputs));
    FilterDistinct(workflow.links, keep);
    FilterElements(workflow.links, keep);
    workflow.links := Filter(workflow.links, keep);
  }

  method SetRevision(operator: Operator, t: Trafo)
    modifies operator`transformationId, operator`revisionGroupId, operator`isWorkflow, operator`state, operator`versionTag
    ensures operator.View() == old(operator.View()).(transformationId := t.id, revisionGroupId := t.revisionGroupId, isWorkflow := t.isWorkflow, state := t.state, versionTag := t.versionTag)
  {
    operator.transformationId := t.id;
    operator.revisionGroupId := t.revisionGroupId;
    operator.isWorkflow := t.isWorkflow;
    operator.state := t.state;
    operator.versionTag := t.versionTag;
  }

  /** The operator keeps its id, as others refer to it. */
  method UpgradeOperator(workflow: Workflow, operator: Operator, t: Trafo, firstId: Uuid) returns (nextId: Uuid)
    requires workflow.Valid()
    modifies workflow, operator, workflow.linkSet
    ensures workflow.Valid() && workflow.operators == old(workflow.operators)
    ensures var v := old(operator.View());
      var v' := Upgraded(v, t, firstId);
      && operator.View() == v' && nextId == AddedOutputs(v, t, firstId).nextId
      && LinkViews(workflow.links) == UpgradedLinks(old(LinkViews(workflow.links)), v')
      && workflow.constants == FixConstants(old(workflow.constants), v.id, v'.inputs)
      && workflow.Inputs() == UpgradedSide(old(workflow.Inputs()), v.id, Kept(t.inputs, v.inputs), AddedInputs(v, t, firstId).contents)
      && workflow.Outputs() == UpgradedSide(old(workflow.Outputs()), v.id, Kept(t.outputs, v.outputs), AddedOutputs(v, t, firstId).contents)
  {
    hide LinkViews, FixEnds, FixStarts, Shown, KeepsInto, KeepsOutOf, Kept, Add, Order, FixConstants, UpgradedSide, Filter;
    ghost var v' := Upgraded(operator.View(), t, firstId);
    ghost var links := LinkViews(workflow.links);
    SetRevision(operator, t);
    assert LinkViews(workflow.links) == links;
    nextId := UpgradeInputs(workflow, operator, t, firstId);
    ghost var links' := LinkViews(workflow.links);
    assert links' == FixEnds(Filter(links, KeepsInto(v'.id, v'.inputs)), v'.id, Shown(v'.inputs), v'.position);
    nextId := UpgradeOutputs(workflow, operator, t, nextId);
    assert operator.View() == v';
    assert LinkViews(workflow.links) == UpgradedLinks(links, v');
  }

  /** Upgrades one operator, the k-th of the workflow, in place. */
  method UpgradeWorkflowOperatorInPlace(workflow: Workflow, ghost k: nat, operator: Operator, t: Trafo, firstId: Uuid) returns (nextId: Uuid)
    requires workflow.Valid() && k < |workflow.operators| && workflow.operators[k] == operator
    modifies workflow, operator, workflow.linkSet
    ensures workflow.Valid() && workflow.operators == old(workflow.operators)
    ensures (workflow.Abstract(), nextId) == Upgrade(old(workflow.Abstract()), k, t, firstId)
  {
    hide LinkViews, OperatorViews, Kept, Add, FixConstants, UpgradedSide, UpgradedLinks, Upgraded;
    ghost var views := OperatorViews(workflow.operators);
    nextId := UpgradeOperator(workflow, operator, t, firstId);
    assert OperatorViews(workflow.operators) == views[k := operator.View()];
  }

  // ----- all operators -----

  method CopyOperators(os: seq<Operator>) returns (copy: seq<Operator>)
    ensures fresh(copy) && Distinct(copy) && OperatorViews(copy) == OperatorViews(os)
  {
    copy := [];
    for i := 0 to |os|
      invariant |copy| == i && fresh(copy) && Distinct(copy)
      invariant forall j :: 0 <= j < i ==> copy[j].View() == os[j].View()
    {
      var o := new Operator(os[i].View());
      copy := copy + [o];
    }
  }

  method CopyLinks(ls: seq<Link>) returns (copy: seq<Link>)
    ensures fresh(copy) && Distinct(copy) && LinkViews(copy) == LinkViews(ls)
  {
    copy := [];
    for i := 0 to |ls|
      invariant |copy| == i && fresh(copy) && Distinct(copy)
      invariant forall j :: 0 <= j < i ==> copy[j].View() == ls[j].View()
    {
      var l := new Link(ls[i].View());
      copy := copy + [l];
    }
  }

  method Copy(workflow: Workflow) returns (copy: Workflow)
    ensures fresh(copy) && fresh(copy.operators) && fresh(copy.linkSet)
    ensures copy.Valid() && copy.Abstract() == workflow.Abstract()
  {
    hide OperatorViews, LinkViews;
    var operators := CopyOperators(workflow.operators);
    var links := CopyLinks(workflow.links);
    copy := new Workflow(operators, links, workflow.constants, workflow.Inputs(), workflow.Outputs());
  }

  /** The operators to check, by id. */
  method OperatorsToCheck(workflow: Workflow, onlyDeprecated: bool) returns (ts: seq<Turn>)
    ensures ts == Turns(OperatorViews(workflow.operators), onlyDeprecated)
  {
    ts := [];
    ghost var vs := OperatorViews(workflow.operators);
    for k := 0 to |workflow.operators|
      invariant ts == Turns(vs[..k], onlyDeprecated)
    {
      assert vs[..k + 1][..k] == vs[..k];
      var operator := workflow.operators[k];
      if !onlyDeprecated || operator.state == DISABLED || operator.state == DRAFT {
        ts := Insert(ts, Turn(operator.id, k), TurnId);
      }
    }
    assert vs[..|vs|] == vs;
  }

  /** The revision an operator is to be upgraded to; fails if none was looked up for its group. */
  method FindReplacement(operator: Operator, r: Request) returns (ok: bool, replacement: Option<Trafo>)
    requires IsChecked(operator.state, r.onlyDeprecated)
    ensures Choose(operator.View(), r) ==
      if !ok then KeyError else if replacement.Some? then UpgradeTo(replacement.value) else Skip
  {
    ok, replacement := true, None;
    if operator.state == DRAFT {
      if operator.transformationId in r.current {
        replacement := Some(r.current[operator.transformationId]);
      }
    } else if operator.revisionGroupId in r.newer {
      replacement := r.newer[operator.revisionGroupId];
    } else {
      ok := false;
    }
    if ok && replacement.Some? && r.sameRevisionNoOp && replacement.value.id == operator.transformationId && operator.state != DRAFT {
      replacement := None;
    }
  }

  lemma RunStep(f: Flow, r: Request, ts: seq<Turn>, n: nat, firstId: Uuid)
    requires InTurn(ts, |f.operators|) && n < |ts| && ts[n].index < |f.operators|
    requires Run(f, r, ts[..n], firstId).Some?
    ensures var (g, nextId) := Run(f, r, ts[..n], firstId).value;
      Run(f, r, ts[..n + 1], firstId) ==
        match Choose(g.operators[ts[n].index], r)
        case Skip => Some((g, nextId))
        case KeyError => None
        case UpgradeTo(t) => Some(Upgrade(g, ts[n].index, t, nextId))
  {
    assert ts[..n + 1][..n] == ts[..n];
  }

  lemma {:induction false} RunStaysFailed(f: Flow, r: Request, ts: seq<Turn>, n: nat, firstId: Uuid)
    requires InTurn(ts, |f.operators|) && n <= |ts| && Run(f, r, ts[..n], firstId).None?
    ensures Run(f, r, ts, firstId).None?
    decreases |ts|
  {
    if n < |ts| {
      assert ts[..|ts| - 1][..n] == ts[..n];
      RunStaysFailed(f, r, ts[..|ts| - 1], n, firstId);
    } else {
      assert ts[..n] == ts;
    }
  }

  /** An operator whose turn it is was not changed before. */
  lemma StillToCheck(f: Flow, r: Request, ts: seq<Turn>, n: nat, firstId: Uuid)
    requires ts == Turns(f.operators, r.onlyDeprecated) && InTurn(ts, |f.operators|) && n < |ts|
    requires Run(f, r, ts[..n], firstId).Some?
    ensures ts[n].index < |f.operators|
    ensures IsChecked(Run(f, r, ts[..n], firstId).value.0.operators[ts[n].index].state, r.onlyDeprecated)
  {
    hide Run, IsChecked;
    TurnsExact(f.operators, r.onlyDeprecated);
    RunOthers(f, r, ts[..n], firstId);
    assert ts[n] in ts && !HasTurn(ts[..n], ts[n].index);
  }

  /** The n-th turn. */
  method UpgradeNext(workflow: Workflow, ghost f: Flow, r: Request, ts: seq<Turn>, n: nat, ghost firstId: Uuid, nextId: Uuid) returns (ok: bool, nextId': Uuid)
    requires workflow.Valid() && |workflow.operators| == |f.operators|
    requires ts == Turns(f.operators, r.onlyDeprecated) && InTurn(ts, |f.operators|) && n < |ts|
    requires Run(f, r, ts[..n], firstId) == Some((workflow.Abstract(), nextId))
    modifies workflow, workflow.operators, workflow.linkSet
    ensures workflow.Valid() && workflow.operators == old(workflow.operators)
    ensures if ok then Run(f, r, ts[..n + 1], firstId) == Some((workflow.Abstract(), nextId')) else Run(f, r, ts, firstId).None?
  {
    hide OperatorViews, LinkViews, Choose, Upgrade, IsChecked, Run, Turns, InTurn;
    StillToCheck(f, r, ts, n, firstId);
    RunStep(f, r, ts, n, firstId);
    nextId' := nextId;
    var k, replacement := ts[n].index, None;
    ok, replacement := FindReplacement(workflow.operators[k], r);
    if !ok {
      RunStaysFailed(f, r, ts, n + 1, firstId);
    } else if replacement.Some? {
      nextId' := UpgradeWorkflowOperatorInPlace(workflow, k, workflow.operators[k], replacement.value, nextId);
    }
  }

  /** Upgrades the operators of a copy. The given workflow is not changed. */
  method UpgradeOperatorsWithProvidedRevisions(workflow: Workflow, r: Request, firstId: Uuid) returns (result: Option<Workflow>, nextId: Uuid)
    requires workflow.Valid()
    ensures result.Some? ==> fresh(result.value) && result.value.Valid()
    ensures RunAll(old(workflow.Abstract()), r, firstId) ==
      if result.Some? then Some((result.value.Abstract(), nextId)) else None
  {
    hide OperatorViews, LinkViews, Run, Turns, InTurn;
    ghost var f := workflow.Abstract();
    var newWorkflow := Copy(workflow);
    var operators := newWorkflow.operators;
    var ts := OperatorsToCheck(newWorkflow, r.onlyDeprecated);
    TurnsExact(f.operators, r.onlyDeprecated);
    assert forall t :: t in ts ==> t.index < |f.operators|;
    nextId := firstId;
    NothingRun(f, r, ts, firstId);
    for n := 0 to |ts|
      invariant newWorkflow.Valid() && newWorkflow.operators == operators
      invariant (forall t :: t in ts[..n] ==> t.index < |f.operators|) && Run(f, r, ts[..n], firstId) == Some((newWorkflow.Abstract(), nextId))
    {
      var ok;
      ok, nextId := UpgradeNext(newWorkflow, f, r, ts, n, firstId, nextId);
      if !ok {
        return None, nextId;
      }
    }
    assert ts[..|ts|] == ts;
    result := Some(newWorkflow);
  }

  lemma NothingRun(f: Flow, r: Request, ts: seq<Turn>, firstId: Uuid)
    ensures Run(f, r, ts[..0], firstId) == Some((f, firstId))
  {
  }
}
