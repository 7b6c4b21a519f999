/** Upgrading operators of a workflow, one after the other, with everything in the workflow that refers
    to them. */
module OperatorUpgrade {
  import opened Wrappers
  import opened IOTypes
  import opened OrderedDict
  import opened InterfaceReconciliation
  import opened WorkflowEntries
  import opened LinkPaths
  import opened Sequences

  // ----- one upgrade and the whole run -----

  /** A workflow at some moment. */
  datatype Flow = Flow(operators: seq<OperatorView>, links: seq<LinkView>, constants: seq<Constant>, inputs: Side, outputs: Side)

  /** Upgrading one operator; also the next unused id. */
  function Upgrade(f: Flow, k: nat, t: Trafo, firstId: Uuid): (Flow, Uuid)
    requires k < |f.operators|
  {
    var v, v' := f.operators[k], Upgraded(f.operators[k], t, firstId);
    var flow := Flow(
      f.operators[k := v'],
      UpgradedLinks(f.links, v'),
      FixConstants(f.constants, v.id, v'.inputs),
      UpgradedSide(f.inputs, v.id, Kept(t.inputs, v.inputs), AddedInputs(v, t, firstId).contents),
      UpgradedSide(f.outputs, v.id, Kept(t.outputs, v.outputs), AddedOutputs(v, t, firstId).contents));
    (flow, AddedOutputs(v, t, firstId).nextId)
  }

  /** The provided revisions: possibly newer ones by revision group, current ones by id, and options. */
  datatype Request = Request(newer: map<Uuid, Option<Trafo>>, current: map<Uuid, Trafo>, onlyDeprecated: bool, sameRevisionNoOp: bool)

  datatype Choice = Skip | UpgradeTo(trafo: Trafo) | KeyError

  predicate IsChecked(s: State, onlyDeprecated: bool) {
    !onlyDeprecated || s.DISABLED? || s.DRAFT?
  }

  function Choose(v: OperatorView, r: Request): Choice {
    if !IsChecked(v.state, r.onlyDeprecated) then Skip
    else if v.state.DRAFT? then
      if v.transformationId in r.current then UpgradeTo(r.current[v.transformationId]) else Skip
    else if v.revisionGroupId !in r.newer then KeyError
    else
      match r.newer[v.revisionGroupId]
      case None => Skip
      case Some(t) => if r.sameRevisionNoOp && t.id == v.transformationId then Skip else UpgradeTo(t)
  }

  /** An operator to check, listed under its id. */
  datatype Turn = Turn(id: Uuid, index: nat)

  function TurnId(t: Turn): Uuid {
    t.id
  }

  /** The dictionary, by id, of the operators to check. */
  function Turns(vs: seq<OperatorView>, onlyDeprecated: bool): seq<Turn> {
    if vs == [] then []
    else
      var k := |vs| - 1;
      if IsChecked(vs[k].state, onlyDeprecated) then Insert(Turns(vs[..k], onlyDeprecated), Turn(vs[k].id, k), TurnId)
      else Turns(vs[..k], onlyDeprecated)
  }

  /** No operator comes up twice. */
  ghost predicate InTurn(ts: seq<Turn>, n: nat) {
    && (forall t :: t in ts ==> t.index < n)
    && forall i, j :: 0 <= i < j < |ts| ==> ts[i].index != ts[j].index
  }

  ghost predicate HasTurn(ts: seq<Turn>, k: nat) {
    exists t :: t in ts && t.index == k
  }

  /** One turn for each id, of a checked operator. */
  ghost predicate OwnTurns(ts: seq<Turn>, vs: seq<OperatorView>, onlyDeprecated: bool) {
    && DistinctKeys(ts, TurnId)
    && forall t :: t in ts ==> t.index < |vs| && t.id == vs[t.index].id && IsChecked(vs[t.index].state, onlyDeprecated)
  }

  ghost predicate IsLastChecked(vs: seq<OperatorView>, onlyDeprecated: bool, k: nat) {
    && k < |vs| && IsChecked(vs[k].state, onlyDeprecated)
    && forall j :: k < j < |vs| && vs[j].id == vs[k].id ==> !IsChecked(vs[j].state, onlyDeprecated)
  }

  /** Of the checked operators with one id the last has a turn, and only that; unchecked ones have none. */
  lemma {:induction false} TurnsExact(vs: seq<OperatorView>, onlyDeprecated: bool)
    ensures InTurn(Turns(vs, onlyDeprecated), |vs|) && OwnTurns(Turns(vs, onlyDeprecated), vs, onlyDeprecated)
    ensures forall k: nat :: HasTurn(Turns(vs, onlyDeprecated), k) <==> IsLastChecked(vs, onlyDeprecated, k)
  {
    hide HasTurn, IsLastChecked, OwnTurns, IsChecked, Insert;
    if vs == [] {
      NoTurns();
      NobodyChecked(onlyDeprecated);
    } else {
      var n := |vs| - 1;
      TurnsExact(vs[..n], onlyDeprecated);
      LastCheckedStep(vs, onlyDeprecated);
      if IsChecked(vs[n].state, onlyDeprecated) {
        TurnInserted(vs, Turns(vs[..n], onlyDeprecated), onlyDeprecated);
      } else {
        OwnTurnsLater(vs, Turns(vs[..n], onlyDeprecated), onlyDeprecated);
      }
    }
  }

  lemma NobodyChecked(onlyDeprecated: bool)
    ensures InTurn([], 0) && OwnTurns([], [], onlyDeprecated) && forall k: nat :: !IsLastChecked([], onlyDeprecated, k)
  {
  }

  lemma OwnTurnsLater(vs: seq<OperatorView>, ts: seq<Turn>, onlyDeprecated: bool)
    requires vs != [] && OwnTurns(ts, vs[..|vs| - 1], onlyDeprecated)
    ensures OwnTurns(ts, vs, onlyDeprecated) && InTurn(ts, |vs|)
    ensures forall k: nat :: HasTurn(ts, k) ==> k < |vs| - 1
  {
  }

  lemma LastCheckedStep(vs: seq<OperatorView>, onlyDeprecated: bool)
    requires vs != []
    ensures var n := |vs| - 1;
      var checked := IsChecked(vs[n].state, onlyDeprecated);
      forall k: nat :: IsLastChecked(vs, onlyDeprecated, k) <==>
        if k == n then checked else k < n && IsLastChecked(vs[..n], onlyDeprecated, k) && !(checked && vs[k].id == vs[n].id)
  {
    var n := |vs| - 1;
    forall k: nat | k < n && IsLastChecked(vs[..n], onlyDeprecated, k)
      ensures IsLastChecked(vs, onlyDeprecated, k) <==> !(IsChecked(vs[n].state, onlyDeprecated) && vs[k].id == vs[n].id)
    {
      assert forall j :: k < j < n ==> vs[..n][j] == vs[j];
    }
    forall k: nat | k < n && IsLastChecked(vs, onlyDeprecated, k) ensures IsLastChecked(vs[..n], onlyDeprecated, k) {
      assert forall j :: k < j < n ==> vs[..n][j] == vs[j];
    }
  }

  lemma TurnInserted(vs: seq<OperatorView>, ts: seq<Turn>, onlyDeprecated: bool)
    requires vs != [] && OwnTurns(ts, vs[..|vs| - 1], onlyDeprecated) && IsChecked(vs[|vs| - 1].state, onlyDeprecated)
    ensures var n := |vs| - 1;
      var ts' := Insert(ts, Turn(vs[n].id, n), TurnId);
      && OwnTurns(ts', vs, onlyDeprecated) && InTurn(ts', |vs|)
      && forall k: nat :: HasTurn(ts', k) <==> k == n || (HasTurn(ts, k) && k < n && vs[k].id != vs[n].id)
  {
    var n := |vs| - 1;
    var turn := Turn(vs[n].id, n);
    var ts' := Insert(ts, turn, TurnId);
    InsertElements(ts, turn, TurnId);
    hide DistinctKeys, Insert;
    forall k | 0 <= k < n ensures HasTurn(ts', k) <==> HasTurn(ts, k) && vs[k].id != vs[n].id {
      if t :| t in ts && t.index == k && vs[k].id != vs[n].id {
        assert t in ts';
      }
      if t :| t in ts' && t.index == k {
        assert t in ts;
      }
    }
  }

  /** The first operators of a workflow upgraded, in the order of their turns. */
  function Run(f: Flow, r: Request, ts: seq<Turn>, firstId: Uuid): (out: Option<(Flow, Uuid)>)
    requires forall t :: t in ts ==> t.index < |f.operators|
    ensures out.Some? ==> |out.value.0.operators| == |f.operators|
  {
    if ts == [] then Some((f, firstId))
    else
      match Run(f, r, ts[..|ts| - 1], firstId)
      case None => None
      case Some((g, nextId)) =>
        var k := ts[|ts| - 1].index;
        match Choose(g.operators[k], r)
        case Skip => Some((g, nextId))
        case KeyError => None
        case UpgradeTo(t) => Some(Upgrade(g, k, t, nextId))
  }

  /** The operators to check upgraded, all of them. */
  function RunAll(f: Flow, r: Request, firstId: Uuid): (out: Option<(Flow, Uuid)>)
    ensures out.Some? ==> |out.value.0.operators| == |f.operators|
  {
    TurnsExact(f.operators, r.onlyDeprecated);
    Run(f, r, Turns(f.operators, r.onlyDeprecated), firstId)
  }

  // ----- what a whole run does to each operator -----

  ghost predicate OperatorsIdentified(vs: seq<OperatorView>) {
    forall i, j :: 0 <= i < j < |vs| ==> vs[i].id != vs[j].id
  }

  function ConstantOf(operatorId: Uuid): Constant -> bool {
    (c: Constant) => c.operatorId == operatorId
  }

  function FitsInputs(inputs: seq<Connector>): Constant -> bool {
    (c: Constant) => ConstantFits(c, inputs)
  }

  /** Nothing that belongs to an operator id changed. */
  ghost predicate SameEntries(f: Flow, g: Flow, operatorId: Uuid) {
    && Filter(g.inputs.contents, OfOperator(operatorId)) == Filter(f.inputs.contents, OfOperator(operatorId))
    && Filter(g.outputs.contents, OfOperator(operatorId)) == Filter(f.outputs.contents, OfOperator(operatorId))
    && Filter(g.constants, ConstantOf(operatorId)) == Filter(f.constants, ConstantOf(operatorId))
  }

  /** The entries of an upgraded operator: those on kept connectors and then the new ones; of its
      constants those that fit. */
  ghost predicate ReconciledEntries(f: Flow, g: Flow, v: OperatorView, t: Trafo, id: Uuid) {
    && Filter(g.inputs.contents, OfOperator(v.id)) ==
       Filter(Filter(f.inputs.contents, OfOperator(v.id)), KeepsName(Kept(t.inputs, v.inputs))) + AddedInputs(v, t, id).contents
    && Filter(g.outputs.contents, OfOperator(v.id)) ==
       Filter(Filter(f.outputs.contents, OfOperator(v.id)), KeepsName(Kept(t.outputs, v.outputs))) + AddedOutputs(v, t, id).contents
    && Filter(g.constants, ConstantOf(v.id)) ==
       Filter(Filter(f.constants, ConstantOf(v.id)), FitsInputs(Upgraded(v, t, id).inputs))
  }

  lemma UpgradeEntries(f: Flow, k: nat, t: Trafo, firstId: Uuid, other: Uuid)
    requires k < |f.operators|
    ensures var g := Upgrade(f, k, t, firstId).0;
      if other == f.operators[k].id then ReconciledEntries(f, g, f.operators[k], t, firstId) else SameEntries(f, g, other)
    ensures firstId <= Upgrade(f, k, t, firstId).1
  {
    hide UpgradedSide, Upgraded, UpgradedLinks, Kept, Add;
    var v := f.operators[k];
    AddContents(t.inputs, Kept(t.inputs, v.inputs), v.id, firstId);
    AddContents(t.outputs, Kept(t.outputs, v.outputs), v.id, AddedInputs(v, t, firstId).nextId);
    assert forall c :: c in AddedInputs(v, t, firstId).contents ==> NewEntry(c, v.id, firstId, AddedInputs(v, t, firstId).nextId);
    assert forall c :: c in AddedOutputs(v, t, firstId).contents ==> NewEntry(c, v.id, AddedInputs(v, t, firstId).nextId, AddedOutputs(v, t, firstId).nextId);
    UpgradedEntries(f.inputs, v.id, Kept(t.inputs, v.inputs), AddedInputs(v, t, firstId).contents, other);
    UpgradedEntries(f.outputs, v.id, Kept(t.outputs, v.outputs), AddedOutputs(v, t, firstId).contents, other);
    FixedConstants(f.constants, v.id, Upgraded(v, t, firstId).inputs, other);
  }

  lemma FixedConstants(cs: seq<Constant>, operatorId: Uuid, inputs: seq<Connector>, other: Uuid)
    ensures Filter(FixConstants(cs, operatorId, inputs), ConstantOf(other)) ==
      if other == operatorId then Filter(Filter(cs, ConstantOf(other)), FitsInputs(inputs))
      else Filter(cs, ConstantOf(other))
  {
    if other == operatorId {
      var both := (c: Constant) => c.operatorId == other && ConstantFits(c, inputs);
      FilterTwice(cs, KeepsConstant(operatorId, inputs), ConstantOf(other), both);
      FilterTwice(cs, ConstantOf(other), FitsInputs(inputs), both);
    } else {
      FilterTwice(cs, KeepsConstant(operatorId, inputs), ConstantOf(other), ConstantOf(other));
    }
  }

  lemma InTurnInit(ts: seq<Turn>, n: nat)
    requires InTurn(ts, n) && ts != []
    ensures InTurn(ts[..|ts| - 1], n) && forall t :: t in ts[..|ts| - 1] ==> t.index < n
    ensures !HasTurn(ts[..|ts| - 1], ts[|ts| - 1].index) && ts[|ts| - 1].index < n
    ensures forall k :: HasTurn(ts, k) <==> HasTurn(ts[..|ts| - 1], k) || k == ts[|ts| - 1].index
  {
    assert ts == ts[..|ts| - 1] + [ts[|ts| - 1]];
    assert ts[|ts| - 1] in ts;
  }

  lemma {:induction false} RunOthers(f: Flow, r: Request, ts: seq<Turn>, firstId: Uuid)
    requires InTurn(ts, |f.operators|) && Run(f, r, ts, firstId).Some?
    ensures forall k :: 0 <= k < |f.operators| && !HasTurn(ts, k) ==> Run(f, r, ts, firstId).value.0.operators[k] == f.operators[k]
  {
    hide Choose, HasTurn, InTurn;
    if ts != [] {
      InTurnInit(ts, |f.operators|);
      RunOthers(f, r, ts[..|ts| - 1], firstId);
    }
  }

  ghost predicate Unlisted(f: Flow, r: Request, k: nat) {
    k < |f.operators| && Choose(f.operators[k], r).KeyError?
  }

  /** A run fails exactly if an operator that is to be checked and not a draft has a revision group that
      was not looked up. */
  lemma {:induction false} RunFails(f: Flow, r: Request, ts: seq<Turn>, firstId: Uuid)
    requires InTurn(ts, |f.operators|)
    ensures Run(f, r, ts, firstId).None? <==> exists k :: HasTurn(ts, k) && Unlisted(f, r, k)
  {
    hide Choose, HasTurn, InTurn;
    if ts != [] {
      var init, k := ts[..|ts| - 1], ts[|ts| - 1].index;
      InTurnInit(ts, |f.operators|);
      RunFails(f, r, init, firstId);
      if Run(f, r, init, firstId).Some? {
        RunOthers(f, r, init, firstId);
        assert Run(f, r, ts, firstId).None? <==> Unlisted(f, r, k);
      }
    } else {
      NoTurns();
    }
  }

  lemma NoTurns()
    ensures forall k :: !HasTurn([], k)
  {
  }

  /** Operator k was upgraded to t with ids from some id on, or left alone with all its entries. */
  ghost predicate Reconciled(f: Flow, g: Flow, k: nat, t: Trafo, id: Uuid)
    requires k < |f.operators| == |g.operators|
  {
    g.operators[k] == Upgraded(f.operators[k], t, id) && ReconciledEntries(f, g, f.operators[k], t, id)
  }

  ghost predicate OperatorDone(f: Flow, g: Flow, k: nat, choice: Choice, firstId: Uuid, nextId: Uuid)
    requires k < |f.operators| == |g.operators|
  {
    match choice
    case UpgradeTo(t) => exists id :: firstId <= id <= nextId && Reconciled(f, g, k, t, id)
    case _ => g.operators[k] == f.operators[k] && SameEntries(f, g, f.operators[k].id)
  }

  /** A run treats every operator as if it were the only one: upgraded to the revision chosen for its
      initial state, or untouched. No upgrade disturbs an operator upgraded before, or entries of others. */
  lemma {:induction false} RunPointwise(f: Flow, r: Request, ts: seq<Turn>, firstId: Uuid, k: nat)
    requires k < |f.operators| && InTurn(ts, |f.operators|) && OperatorsIdentified(f.operators)
    requires Run(f, r, ts, firstId).Some?
    ensures var (g, nextId) := Run(f, r, ts, firstId).value;
      && firstId <= nextId
      && OperatorDone(f, g, k, if HasTurn(ts, k) then Choose(f.operators[k], r) else Skip, firstId, nextId)
  {
    hide Upgrade, OperatorDone, Choose, OperatorsIdentified, HasTurn, InTurn;
    if ts == [] {
      NothingDone(f, k, firstId);
      NoTurns();
    } else {
      var init, m := ts[..|ts| - 1], ts[|ts| - 1].index;
      InTurnInit(ts, |f.operators|);
      var (g, nextId) := Run(f, r, init, firstId).value;
      RunOthers(f, r, init, firstId);
      RunPointwise(f, r, init, firstId, k);
      match Choose(f.operators[m], r) {
        case UpgradeTo(t) =>
          StepPointwise(f, g, m, t, firstId, nextId, k, if HasTurn(init, k) then Choose(f.operators[k], r) else Skip);
        case _ =>
      }
    }
  }

  lemma NothingDone(f: Flow, k: nat, firstId: Uuid)
    requires k < |f.operators|
    ensures OperatorDone(f, f, k, Skip, firstId, firstId)
  {
  }

  lemma StepPointwise(f: Flow, g: Flow, m: nat, t: Trafo, firstId: Uuid, nextId: Uuid, k: nat, choice: Choice)
    requires k < |f.operators| == |g.operators| && m < |f.operators| && OperatorsIdentified(f.operators)
    requires firstId <= nextId && OperatorDone(f, g, k, choice, firstId, nextId) && g.operators[m] == f.operators[m]
    requires k == m ==> choice.Skip?
    ensures var (h, next) := Upgrade(g, m, t, nextId);
      nextId <= next && OperatorDone(f, h, k, if k == m then UpgradeTo(t) else choice, firstId, next)
  {
    hide Upgraded, UpgradedSide, UpgradedLinks, FixConstants, Kept, Add;
    var (h, next) := Upgrade(g, m, t, nextId);
    UpgradeEntries(g, m, t, nextId, f.operators[k].id);
    if k == m {
      assert ReconciledEntries(f, h, f.operators[k], t, nextId);
      assert Reconciled(f, h, k, t, nextId);
    } else {
      assert f.operators[k].id != f.operators[m].id;
      assert SameEntries(g, h, f.operators[k].id);
      match choice {
        case UpgradeTo(u) =>
          var id :| firstId <= id <= nextId && Reconciled(f, g, k, u, id);
          assert Reconciled(f, h, k, u, id);
        case _ =>
      }
    }
  }

  /** After a complete run every operator for which a replacement was chosen is an exact instance of it,
      with ids of fitting connectors kept, and every other operator is as before. */
  lemma RunUpgradesExactly(f: Flow, r: Request, firstId: Uuid, k: nat)
    requires k < |f.operators| && OperatorsIdentified(f.operators)
    requires RunAll(f, r, firstId).Some?
    ensures var v, v' := f.operators[k], RunAll(f, r, firstId).value.0.operators[k];
      && v'.id == v.id && v'.position == v.position
      && match Choose(v, r)
         case UpgradeTo(t) =>
           && InstanceOf(v', t)
           && ConnectorsFor(v'.inputs, t.inputs, v.inputs, firstId)
           && ConnectorsFor(v'.outputs, t.outputs, v.outputs, firstId)
         case _ => v' == v
  {
    var v, ts := f.operators[k], Turns(f.operators, r.onlyDeprecated);
    TurnsExact(f.operators, r.onlyDeprecated);
    var (g, nextId) := Run(f, r, ts, firstId).value;
    RunPointwise(f, r, ts, firstId, k);
    assert HasTurn(ts, k) <==> IsChecked(v.state, r.onlyDeprecated);
    UpgradedExactly(f, g, k, Choose(v, r), firstId, nextId);
  }

  lemma UpgradedExactly(f: Flow, g: Flow, k: nat, choice: Choice, firstId: Uuid, nextId: Uuid)
    requires k < |f.operators| == |g.operators| && OperatorDone(f, g, k, choice, firstId, nextId)
    ensures var v, v' := f.operators[k], g.operators[k];
      && v'.id == v.id && v'.position == v.position
      && match choice
         case UpgradeTo(t) =>
           && InstanceOf(v', t)
           && ConnectorsFor(v'.inputs, t.inputs, v.inputs, firstId)
           && ConnectorsFor(v'.outputs, t.outputs, v.outputs, firstId)
         case _ => v' == v
  {
    var v := f.operators[k];
    match choice {
      case UpgradeTo(t) =>
        var id :| firstId <= id <= nextId && Reconciled(f, g, k, t, id);
        UpgradedIsInstance(v, t, id);
        UpgradedInherits(v, t, id);
        LaterIds(g.operators[k].inputs, t.inputs, v.inputs, firstId, id);
        LaterIds(g.operators[k].outputs, t.outputs, v.outputs, firstId, id);
      case _ =>
    }
  }

  /** What becomes of the operators, as the request says: a draft operator follows the current state of its
      own revision, every other one that is to be checked the revision given for its group. Released
      operators stay if only deprecated ones are asked for. */
  lemma RunFollowsRequest(f: Flow, r: Request, firstId: Uuid, k: nat)
    requires k < |f.operators| && OperatorsIdentified(f.operators)
    requires RunAll(f, r, firstId).Some?
    ensures var v, v' := f.operators[k], RunAll(f, r, firstId).value.0.operators[k];
      if v.state.DRAFT? then
        if v.transformationId in r.current then InstanceOf(v', r.current[v.transformationId]) else v' == v
      else if v.state.RELEASED? && r.onlyDeprecated then v' == v
      else
        && v.revisionGroupId in r.newer
        && match r.newer[v.revisionGroupId]
           case None => v' == v
           case Some(t) => if r.sameRevisionNoOp && t.id == v.transformationId then v' == v else InstanceOf(v', t)
  {
    hide InstanceOf;
    RunUpgradesExactly(f, r, firstId, k);
    TurnsExact(f.operators, r.onlyDeprecated);
    RunFails(f, r, Turns(f.operators, r.onlyDeprecated), firstId);
    if IsChecked(f.operators[k].state, r.onlyDeprecated) {
      assert IsLastChecked(f.operators, r.onlyDeprecated, k);
      assert !Unlisted(f, r, k);
    }
  }

  /** So, if revisions are given under their own ids and groups, draft operators keep their revision and
      others their revision group. */
  lemma RunKeepsIdentity(f: Flow, r: Request, firstId: Uuid, k: nat)
    requires k < |f.operators| && OperatorsIdentified(f.operators)
    requires RunAll(f, r, firstId).Some?
    requires forall i :: i in r.current ==> r.current[i].id == i
    requires forall g :: g in r.newer && r.newer[g].Some? ==> r.newer[g].value.revisionGroupId == g
    ensures var v, v' := f.operators[k], RunAll(f, r, firstId).value.0.operators[k];
      if v.state.DRAFT? then v'.transformationId == v.transformationId else v'.revisionGroupId == v.revisionGroupId
  {
    RunFollowsRequest(f, r, firstId, k);
  }

  /** The run raises exactly if the last operator of some id that is to be checked, and is no draft, belongs
      to a group that is not in the request. */
  lemma RunAllFails(f: Flow, r: Request, firstId: Uuid)
    ensures RunAll(f, r, firstId).None? <==>
      exists k: nat :: k < |f.operators| && !f.operators[k].state.DRAFT? && f.operators[k].revisionGroupId !in r.newer
        && (r.onlyDeprecated ==> f.operators[k].state.DISABLED?)
        && forall j :: k < j < |f.operators| && f.operators[j].id == f.operators[k].id ==> r.onlyDeprecated && f.operators[j].state.RELEASED?
  {
    var ts := Turns(f.operators, r.onlyDeprecated);
    TurnsExact(f.operators, r.onlyDeprecated);
    RunFails(f, r, ts, firstId);
    forall k: nat | k < |f.operators|
      ensures HasTurn(ts, k) && Unlisted(f, r, k) <==>
        && !f.operators[k].state.DRAFT? && f.operators[k].revisionGroupId !in r.newer
        && (r.onlyDeprecated ==> f.operators[k].state.DISABLED?)
        && forall j :: k < j < |f.operators| && f.operators[j].id == f.operators[k].id ==> r.onlyDeprecated && f.operators[j].state.RELEASED?
    {
      assert HasTurn(ts, k) <==> IsLastChecked(f.operators, r.onlyDeprecated, k);
    }
  }

  // ----- what a whole run does to the interface and the wirings of the workflow -----

  lemma UpgradeSides(f: Flow, k: nat, t: Trafo, firstId: Uuid)
    requires k < |f.operators|
    ensures SideDone(f.inputs, Upgrade(f, k, t, firstId).0.inputs) && SideDone(f.outputs, Upgrade(f, k, t, firstId).0.outputs)
  {
    hide UpgradedSide, SideDone, Upgraded, UpgradedLinks, Kept, Add;
    var v := f.operators[k];
    AddContents(t.inputs, Kept(t.inputs, v.inputs), v.id, firstId);
    AddContents(t.outputs, Kept(t.outputs, v.outputs), v.id, AddedInputs(v, t, firstId).nextId);
    UpgradedSideDone(f.inputs, v.id, Kept(t.inputs, v.inputs), AddedInputs(v, t, firstId).contents);
    UpgradedSideDone(f.outputs, v.id, Kept(t.outputs, v.outputs), AddedOutputs(v, t, firstId).contents);
  }

  /** After a run that upgraded anything, every io interface entry names a content entry of its type,
      and the wirings left are for inputs and outputs whose type is the one before the run. */
  lemma {:induction false} RunSides(f: Flow, r: Request, ts: seq<Turn>, firstId: Uuid)
    requires InTurn(ts, |f.operators|) && Run(f, r, ts, firstId).Some?
    ensures var g := Run(f, r, ts, firstId).value.0;
      g == f || (SideDone(f.inputs, g.inputs) && SideDone(f.outputs, g.outputs))
  {
    hide SideDone, Upgrade, HasTurn, InTurn;
    if ts != [] {
      var init, k := ts[..|ts| - 1], ts[|ts| - 1].index;
      InTurnInit(ts, |f.operators|);
      var (g, nextId) := Run(f, r, init, firstId).value;
      RunSides(f, r, init, firstId);
      match Choose(g.operators[k], r) {
        case UpgradeTo(t) =>
          UpgradeSides(g, k, t, nextId);
          if g != f {
            var h := Upgrade(g, k, t, nextId).0;
            SideDoneTransitive(f.inputs, g.inputs, h.inputs);
            SideDoneTransitive(f.outputs, g.outputs, h.outputs);
          }
        case _ =>
      }
    }
  }

  // ----- what a whole run does to paths -----

  ghost predicate AllApart(f: Flow) {
    forall k :: 0 <= k < |f.operators| ==> IdsApart(f.links, f.operators[k].id)
  }

  lemma {:induction false} RunVertices(f: Flow, r: Request, ts: seq<Turn>, firstId: Uuid)
    requires InTurn(ts, |f.operators|) && Run(f, r, ts, firstId).Some? && AllApart(f)
    ensures SameVertices(f.links, Run(f, r, ts, firstId).value.0.links)
  {
    hide UpgradedLinks, Upgraded, UpgradedSide, HasTurn, InTurn;
    if ts != [] {
      var init, k := ts[..|ts| - 1], ts[|ts| - 1].index;
      InTurnInit(ts, |f.operators|);
      var (g, nextId) := Run(f, r, init, firstId).value;
      RunVertices(f, r, init, firstId);
      RunOthers(f, r, init, firstId);
      match Choose(g.operators[k], r) {
        case UpgradeTo(t) =>
          UpgradedId(g.operators[k], t, nextId);
          ApartTransfer(f.links, g.links, f.operators[k].id);
          UpgradedVertices(g.links, Upgraded(g.operators[k], t, nextId));
        case _ =>
      }
    }
  }

  /** All along a run, links keep their course except for the heights of their ends. Paths into and out
      of upgraded operators meet them at the right heights, in the final order of inputs and outputs. */
  lemma {:induction false} RunPaths(f: Flow, r: Request, ts: seq<Turn>, firstId: Uuid, i: nat)
    requires InTurn(ts, |f.operators|) && OperatorsIdentified(f.operators) && Run(f, r, ts, firstId).Some?
    requires i < |f.links| && AllApart(f)
    ensures var g := Run(f, r, ts, firstId).value.0;
      && |g.links| == |f.links| && SameButHeights(f.links[i], g.links[i])
      && forall k :: 0 <= k < |f.operators| && HasTurn(ts, k) && Choose(f.operators[k], r).UpgradeTo? ==>
           EndPlaced(f.links, i, g.links[i].path, g.operators[k]) && StartPlaced(f.links, i, g.links[i].path, g.operators[k])
  {
    hide EndPlaced, StartPlaced, UpgradedLinks, Upgraded, UpgradedSide, IdsApart, Choose, SameVertices, HasTurn, InTurn;
    if ts == [] {
      NoTurns();
    } else {
      var init, m := ts[..|ts| - 1], ts[|ts| - 1].index;
      InTurnInit(ts, |f.operators|);
      var (g, nextId) := Run(f, r, init, firstId).value;
      RunPaths(f, r, init, firstId, i);
      RunOthers(f, r, init, firstId);
      RunIds(f, r, init, firstId);
      match Choose(g.operators[m], r) {
        case UpgradeTo(t) =>
          RunVertices(f, r, init, firstId);
          UpgradedId(g.operators[m], t, nextId);
          StepPaths(f.links, g.links, Upgraded(g.operators[m], t, nextId), i);
          var h := Run(f, r, ts, firstId).value.0;
          assert h == Upgrade(g, m, t, nextId).0;
          forall k | 0 <= k < |f.operators| && HasTurn(ts, k) && Choose(f.operators[k], r).UpgradeTo?
            ensures EndPlaced(f.links, i, h.links[i].path, h.operators[k]) && StartPlaced(f.links, i, h.links[i].path, h.operators[k])
          {
            assert k != m ==> g.operators[k].id != g.operators[m].id;
          }
        case _ =>
      }
    }
  }

  lemma {:induction false} RunIds(f: Flow, r: Request, ts: seq<Turn>, firstId: Uuid)
    requires InTurn(ts, |f.operators|) && Run(f, r, ts, firstId).Some?
    ensures forall k :: 0 <= k < |f.operators| ==> Run(f, r, ts, firstId).value.0.operators[k].id == f.operators[k].id
  {
    hide Upgrade, Choose, HasTurn, InTurn;
    if ts != [] {
      var init, k := ts[..|ts| - 1], ts[|ts| - 1].index;
      InTurnInit(ts, |f.operators|);
      RunIds(f, r, init, firstId);
      var (g, nextId) := Run(f, r, init, firstId).value;
      if Choose(g.operators[k], r).UpgradeTo? {
        UpgradeIds(g, k, Choose(g.operators[k], r).trafo, nextId);
      }
    }
  }

  lemma UpgradeIds(g: Flow, k: nat, t: Trafo, firstId: Uuid)
    requires k < |g.operators|
    ensures var h := Upgrade(g, k, t, firstId).0;
      |h.operators| == |g.operators| && forall i :: 0 <= i < |g.operators| ==> h.operators[i].id == g.operators[i].id
  {
    UpgradedId(g.operators[k], t, firstId);
  }
}
