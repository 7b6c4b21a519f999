/** Expansion of a workflow revision into the tree of nodes that is executed. */
module Unfolding {
  import opened OrderedDict
  import opened Sequences
  import opened Nesting

  datatype Node =
    | ComponentNode(operatorId: Uuid, operatorName: string, trafoId: Uuid)
    | WorkflowNode(operatorId: Uuid, operatorName: string, trafoId: Uuid, subNodes: seq<Node>)

  /** NotFound: a referenced revision was not provided; WrongType: an operator's type disagrees with the
      revision it points to, or the root is no workflow; TooDeep: the recursion limit was reached. */
  datatype Nodes = Nodes(nodes: seq<Node>) | NotFound | WrongType | TooDeep

  // ----- the computation -----

  function OperatorId(o: Operator): Uuid { o.id }

  /** The revision of an operator, looked up by the operator's id: of several operators with one id that
      of the last. */
  function Child(all: seq<Operator>, o: Operator): Uuid
    requires o in all
  {
    Find(all, OperatorId, o.id).value.trafoId
  }

  predicate AllPresent(ops: seq<Operator>, d: TrafoDict) {
    forall o :: o in ops ==> o.trafoId in d
  }

  /** What `nested_nodes` yields for workflow `tid` with `depth` nested calls left. */
  function Expand(tid: Uuid, d: TrafoDict, depth: nat): Nodes
    requires tid in d
    decreases depth, 1
  {
    if d[tid].Component? then WrongType
    else if !AllPresent(d[tid].operators, d) then NotFound
    else Collected(tid, d, depth)
  }

  function Collected(tid: Uuid, d: TrafoDict, depth: nat): Nodes
    requires tid in d && d[tid].Workflow? && AllPresent(d[tid].operators, d)
    decreases depth, 0
  {
    if depth == 0 then TooDeep else ExpandAll(d[tid].operators, d[tid].operators, d, depth - 1)
  }

  function ExpandAll(ops: seq<Operator>, all: seq<Operator>, d: TrafoDict, depth: nat): Nodes
    requires AllPresent(all, d) && forall o :: o in ops ==> o in all
    decreases depth, 3 + |ops|
  {
    if ops == [] then Nodes([])
    else
      match ExpandOne(ops[0], all, d, depth)
      case Nodes(first) => Prepend(first, ExpandAll(ops[1..], all, d, depth))
      case error => error
  }

  function Prepend(first: seq<Node>, r: Nodes): Nodes {
    if r.Nodes? then Nodes(first + r.nodes) else r
  }

  /** One node for one operator. */
  function ExpandOne(o: Operator, all: seq<Operator>, d: TrafoDict, depth: nat): Nodes
    requires AllPresent(all, d) && o in all
    decreases depth, 2
  {
    var child := Child(all, o);
    if o.kind.COMPONENT? then
      if d[child].Component? then Nodes([ComponentNode(o.id, o.name, child)]) else WrongType
    else
      match Expand(child, d, depth)
      case Nodes(sub) => Nodes([WorkflowNode(o.id, o.name, o.trafoId, sub)])
      case error => error
  }

  /** Child revision ids by operator id; a repeated operator id keeps the last. */
  method GetDirectChildTrafosByOperatorId(tid: Uuid, d: TrafoDict) returns (ok: bool, children: map<Uuid, Uuid>)
    requires tid in d && d[tid].Workflow?
    ensures ok <==> AllPresent(d[tid].operators, d)
    ensures ok ==> IsChildDict(children, d[tid].operators)
  {
    var ops := d[tid].operators;
    children := map[];
    for i := 0 to |ops|
      invariant AllPresent(ops[..i], d) && IsChildDict(children, ops[..i])
    {
      assert ops[..i + 1][..i] == ops[..i] && ops[..i + 1] == ops[..i] + [ops[i]];
      if ops[i].trafoId !in d {
        assert ops[i] in ops;
        return false, children;
      }
      children := children[ops[i].id := ops[i].trafoId];
    }
    assert ops[..|ops|] == ops;
    return true, children;
  }

  ghost predicate IsChildDict(children: map<Uuid, Uuid>, ops: seq<Operator>) {
    && (forall id :: id in children <==> Find(ops, OperatorId, id).Some?)
    && (forall id :: id in children ==> children[id] == Find(ops, OperatorId, id).value.trafoId)
  }

  method CollectChildNodes(tid: Uuid, children: map<Uuid, Uuid>, d: TrafoDict, depth: nat) returns (r: Nodes)
    requires tid in d && d[tid].Workflow? && AllPresent(d[tid].operators, d) && IsChildDict(children, d[tid].operators)
    ensures r == Collected(tid, d, depth)
    decreases depth, 0
  {
    hide IsChildDict, ExpandOne;
    if depth == 0 {
      return TooDeep;
    }
    var ops := d[tid].operators;
    var subNodes := [];
    for i := 0 to |ops|
      invariant ExpandAll(ops, ops, d, depth - 1) == Prepend(subNodes, ExpandAll(ops[i..], ops, d, depth - 1))
    {
      assert ops[i..][0] == ops[i] && ops[i..][1..] == ops[i + 1..];
      ghost var rest := ExpandAll(ops[i + 1..], ops, d, depth - 1);
      ChildOf(children, ops, ops[i]);
      r := ChildNode(ops[i], children[ops[i].id], ops, d, depth - 1);
      if !r.Nodes? {
        return;
      }
      PrependAppend(subNodes, r.nodes, rest);
      subNodes := subNodes + r.nodes;
    }
    assert ops[|ops|..] == [];
    return Nodes(subNodes);
  }

  lemma ChildOf(children: map<Uuid, Uuid>, all: seq<Operator>, o: Operator)
    requires IsChildDict(children, all) && o in all
    ensures o.id in children && children[o.id] == Child(all, o)
  {
  }

  lemma PrependAppend(a: seq<Node>, b: seq<Node>, r: Nodes)
    ensures Prepend(a, Prepend(b, r)) == Prepend(a + b, r)
  {
    if r.Nodes? {
      assert a + (b + r.nodes) == (a + b) + r.nodes;
    }
  }

  /** The body of the loop over operators. */
  method ChildNode(o: Operator, child: Uuid, ghost all: seq<Operator>, d: TrafoDict, depth: nat) returns (r: Nodes)
    requires AllPresent(all, d) && o in all && child == Child(all, o)
    ensures r == ExpandOne(o, all, d, depth)
    decreases depth, 1
  {
    if o.kind.COMPONENT? {
      if !d[child].Component? {
        return WrongType;
      }
      return Nodes([ComponentNode(o.id, o.name, child)]);
    }
    if d[child].Component? {
      return WrongType;
    }
    var ok, grandChildren := GetDirectChildTrafosByOperatorId(child, d);
    if !ok {
      return NotFound;
    }
    var sub := CollectChildNodes(child, grandChildren, d, depth);
    if !sub.Nodes? {
      return sub;
    }
    return Nodes([WorkflowNode(o.id, o.name, o.trafoId, sub.nodes)]);
  }

  method NestedNodes(tid: Uuid, d: TrafoDict, depth: nat) returns (r: Nodes)
    requires tid in d
    ensures r == Expand(tid, d, depth)
  {
    if d[tid].Component? {
      return WrongType;
    }
    var ok, children := GetDirectChildTrafosByOperatorId(tid, d);
    if !ok {
      return NotFound;
    }
    r := CollectChildNodes(tid, children, d, depth);
  }

  // ----- the reference: node trees that mirror operator lists -----

  /** Operators `ops` of a workflow with the operators `all`. */
  ghost predicate Mirrors(nodes: seq<Node>, ops: seq<Operator>, all: seq<Operator>, d: TrafoDict)
    decreases nodes, 1
  {
    |nodes| == |ops| && forall i :: 0 <= i < |nodes| ==> Instantiates(nodes[i], ops[i], all, d)
  }

  ghost predicate Instantiates(n: Node, o: Operator, all: seq<Operator>, d: TrafoDict)
    decreases n, 0
  {
    n.operatorId == o.id && n.operatorName == o.name && WellTyped(o, all, d) &&
    match n
    case ComponentNode(_, _, t) => o.kind.COMPONENT? && t == Child(all, o)
    case WorkflowNode(_, _, t, sub) =>
      o.kind.WORKFLOW? && t == o.trafoId && Mirrors(sub, d[Child(all, o)].operators, d[Child(all, o)].operators, d)
  }

  /** The operator points to a provided revision, and the one that is looked up for it has its type. */
  ghost predicate WellTyped(o: Operator, all: seq<Operator>, d: TrafoDict) {
    o in all && o.trafoId in d && Child(all, o) in d && (o.kind.COMPONENT? <==> d[Child(all, o)].Component?)
  }

  ghost predicate IsTree(nodes: seq<Node>, tid: Uuid, d: TrafoDict) {
    tid in d && d[tid].Workflow? && Mirrors(nodes, d[tid].operators, d[tid].operators, d)
  }

  /** There is only one such tree. */
  lemma {:induction false} MirrorUnique(a: seq<Node>, b: seq<Node>, ops: seq<Operator>, all: seq<Operator>, d: TrafoDict)
    requires Mirrors(a, ops, all, d) && Mirrors(b, ops, all, d)
    ensures a == b
    decreases a
  {
    forall i | 0 <= i < |a| ensures a[i] == b[i] {
      assert Instantiates(a[i], ops[i], all, d) && Instantiates(b[i], ops[i], all, d);
      if a[i].WorkflowNode? {
        var grandChildren := d[Child(all, ops[i])].operators;
        MirrorUnique(a[i].subNodes, b[i].subNodes, grandChildren, grandChildren, d);
      }
    }
  }

  function Height(nodes: seq<Node>): nat {
    if nodes == [] then 0
    else Max(NodeHeight(nodes[0]), Height(nodes[1..]))
  }

  function NodeHeight(n: Node): nat {
    match n
    case ComponentNode(_, _, _) => 0
    case WorkflowNode(_, _, _, sub) => 1 + Height(sub)
  }

  lemma {:induction false} HeightIsMax(nodes: seq<Node>)
    ensures forall i :: 0 <= i < |nodes| ==> NodeHeight(nodes[i]) <= Height(nodes)
    ensures Height(nodes) > 0 ==> exists i :: 0 <= i < |nodes| && NodeHeight(nodes[i]) == Height(nodes)
  {
    if nodes != [] {
      var rest := nodes[1..];
      HeightIsMax(rest);
      assert forall i :: 1 <= i < |nodes| ==> nodes[i] == rest[i - 1];
      if NodeHeight(nodes[0]) < Height(rest) {
        var i :| 0 <= i < |rest| && NodeHeight(rest[i]) == Height(rest);
        assert nodes[i + 1] == rest[i];
      }
    }
  }

  // ----- chains of lookups -----

  /** The revisions with every operator pointing where the lookup by operator id leads. */
  ghost function LookedUp(d: TrafoDict): TrafoDict {
    map t | t in d :: if d[t].Workflow? then Workflow(Resolved(d[t].operators, d[t].operators)) else Component
  }

  ghost function Resolved(ops: seq<Operator>, all: seq<Operator>): (r: seq<Operator>)
    requires forall o :: o in ops ==> o in all
    ensures |r| == |ops| && forall i :: 0 <= i < |ops| ==> r[i] == ops[i].(trafoId := Child(all, ops[i]))
  {
    if ops == [] then []
    else Resolved(ops[..|ops| - 1], all) + [ops[|ops| - 1].(trafoId := Child(all, ops[|ops| - 1]))]
  }

  /** If no operator id repeats in a workflow, the lookups lead where the operators point. */
  lemma LookedUpUnique(d: TrafoDict)
    requires forall t :: t in d && d[t].Workflow? ==> DistinctKeys(d[t].operators, OperatorId)
    ensures LookedUp(d) == d
  {
    forall t | t in d ensures LookedUp(d)[t] == d[t] {
      if d[t].Workflow? {
        var ops := d[t].operators;
        forall i | 0 <= i < |ops| ensures Resolved(ops, ops)[i] == ops[i] {
          FindUnique(ops, OperatorId, ops[i]);
        }
      }
    }
  }

  lemma LookupEdge(d: TrafoDict, a: Uuid, b: Uuid)
    ensures Edge(LookedUp(d), a, b) <==>
      a in d && d[a].Workflow? && exists o :: o in d[a].operators && o.kind.WORKFLOW? && Child(d[a].operators, o) == b
  {
    if a in d && d[a].Workflow? {
      var ops := d[a].operators;
      var rs := Resolved(ops, ops);
      assert LookedUp(d)[a] == Workflow(rs);
      if Edge(LookedUp(d), a, b) {
        var o :| o in rs && o.kind.WORKFLOW? && o.trafoId == b;
        var i :| 0 <= i < |rs| && rs[i] == o;
        assert ops[i] in ops;
      }
      if o :| o in ops && o.kind.WORKFLOW? && Child(ops, o) == b {
        var i :| 0 <= i < |ops| && ops[i] == o;
        assert rs[i] in rs;
      }
    }
  }

  /** The tree contains a tree for the end of every chain, lower by one for each step. */
  lemma {:induction false} ChainTree(nodes: seq<Node>, tid: Uuid, d: TrafoDict, p: seq<Uuid>) returns (t: seq<Node>)
    requires IsTree(nodes, tid, d) && ChainFrom(LookedUp(d), tid, p)
    ensures IsTree(t, Last(p), d) && Height(t) + |p| <= Height(nodes) + 1
    decreases |p|
  {
    if |p| == 1 {
      t := nodes;
    } else {
      ChainTail(LookedUp(d), tid, p);
      var i := TreeEdge(nodes, tid, d, p[1]);
      t := ChainTree(nodes[i].subNodes, p[1], d, p[1..]);
      HeightIsMax(nodes);
    }
  }

  lemma TreeEdge(nodes: seq<Node>, tid: Uuid, d: TrafoDict, b: Uuid) returns (i: nat)
    requires IsTree(nodes, tid, d) && Edge(LookedUp(d), tid, b)
    ensures i < |nodes| && nodes[i].WorkflowNode? && IsTree(nodes[i].subNodes, b, d)
  {
    LookupEdge(d, tid, b);
    var ops := d[tid].operators;
    var o :| o in ops && o.kind.WORKFLOW? && Child(ops, o) == b;
    i :| 0 <= i < |ops| && ops[i] == o;
    assert Instantiates(nodes[i], ops[i], ops, d);
  }

  // ----- main results -----

  /** A successful expansion has exactly one subnode per operator, in operator order, on every
      level of the tree. */
  lemma {:induction false} ExpansionMirrors(tid: Uuid, d: TrafoDict, depth: nat)
    requires tid in d && Expand(tid, d, depth).Nodes?
    ensures IsTree(Expand(tid, d, depth).nodes, tid, d) && Height(Expand(tid, d, depth).nodes) < depth
    decreases depth, 0, 0
  {
    ExpansionMirrorsAll(d[tid].operators, d[tid].operators, d, depth - 1);
  }

  lemma {:induction false} ExpansionMirrorsAll(ops: seq<Operator>, all: seq<Operator>, d: TrafoDict, depth: nat)
    requires AllPresent(all, d) && forall o :: o in ops ==> o in all
    requires ExpandAll(ops, all, d, depth).Nodes?
    ensures Mirrors(ExpandAll(ops, all, d, depth).nodes, ops, all, d) && Height(ExpandAll(ops, all, d, depth).nodes) <= depth
    decreases depth, 1, |ops|
  {
    if ops != [] {
      ExpansionMirrorsAll(ops[1..], all, d, depth);
      var o := ops[0];
      if o.kind.WORKFLOW? {
        ExpansionMirrors(Child(all, o), d, depth);
      }
      var first, rest := ExpandOne(o, all, d, depth).nodes, ExpandAll(ops[1..], all, d, depth).nodes;
      assert (first + rest)[1..] == rest;
    }
  }

  ghost predicate WellTypedFrom(tid: Uuid, d: TrafoDict) {
    forall p, o :: ChainFrom(LookedUp(d), tid, p) && Last(p) in d && d[Last(p)].Workflow? && o in d[Last(p)].operators ==>
      WellTyped(o, d[Last(p)].operators, d)
  }

  /** No chain of workflows from `tid` is longer. */
  ghost predicate Shallow(tid: Uuid, d: TrafoDict, depth: nat) {
    forall p :: ChainFrom(LookedUp(d), tid, p) ==> Workflows(LookedUp(d), p) <= depth
  }

  lemma StepDown(tid: Uuid, d: TrafoDict, b: Uuid, depth: nat)
    requires WellTypedFrom(tid, d) && Shallow(tid, d, depth + 1) && Edge(LookedUp(d), tid, b)
    ensures WellTypedFrom(b, d) && Shallow(b, d, depth)
  {
    forall p | ChainFrom(LookedUp(d), b, p)
      ensures ChainFrom(LookedUp(d), tid, [tid] + p) && Last([tid] + p) == Last(p) && Workflows(LookedUp(d), p) <= depth
    {
      ChainCons(LookedUp(d), tid, p);
    }
  }

  /** The expansion succeeds exactly when every reachable operator is well typed and no chain of nested
      workflows is longer than the recursion limit; in particular it never succeeds above a cycle. */
  lemma ExpansionSucceeds(tid: Uuid, d: TrafoDict, depth: nat)
    requires tid in d && d[tid].Workflow?
    ensures Expand(tid, d, depth).Nodes? <==> WellTypedFrom(tid, d) && Shallow(tid, d, depth)
  {
    if WellTypedFrom(tid, d) && Shallow(tid, d, depth) {
      ShallowExpands(tid, d, depth);
    }
    if Expand(tid, d, depth).Nodes? {
      var nodes := Expand(tid, d, depth).nodes;
      ExpansionMirrors(tid, d, depth);
      forall p | ChainFrom(LookedUp(d), tid, p)
        ensures Workflows(LookedUp(d), p) <= depth
        ensures Last(p) in d && d[Last(p)].Workflow? && forall o :: o in d[Last(p)].operators ==> WellTyped(o, d[Last(p)].operators, d)
      {
        var t := ChainTree(nodes, tid, d, p);
        TreeWellTyped(t, Last(p), d);
      }
    }
  }

  lemma TreeWellTyped(nodes: seq<Node>, tid: Uuid, d: TrafoDict)
    requires IsTree(nodes, tid, d)
    ensures forall o :: o in d[tid].operators ==> WellTyped(o, d[tid].operators, d)
  {
    var ops := d[tid].operators;
    forall o | o in ops ensures WellTyped(o, ops, d) {
      var i :| 0 <= i < |ops| && ops[i] == o;
      assert Instantiates(nodes[i], ops[i], ops, d);
    }
  }

  lemma {:induction false} ShallowExpands(tid: Uuid, d: TrafoDict, depth: nat)
    requires tid in d && d[tid].Workflow? && WellTypedFrom(tid, d) && Shallow(tid, d, depth)
    ensures Expand(tid, d, depth).Nodes?
    decreases depth, 0, 0
  {
    var ops := d[tid].operators;
    assert ChainFrom(LookedUp(d), tid, [tid]) && Last([tid]) == tid && Workflows(LookedUp(d), [tid]) == 1;
    assert forall o :: o in ops ==> WellTyped(o, ops, d);
    forall o | o in ops && o.kind.WORKFLOW?
      ensures WellTypedFrom(Child(ops, o), d) && Shallow(Child(ops, o), d, depth - 1)
    {
      LookupEdge(d, tid, Child(ops, o));
      StepDown(tid, d, Child(ops, o), depth - 1);
    }
    ShallowExpandsAll(ops, ops, d, depth - 1);
  }

  lemma {:induction false} ShallowExpandsAll(ops: seq<Operator>, all: seq<Operator>, d: TrafoDict, depth: nat)
    requires forall o :: o in ops ==> o in all
    requires forall o :: o in all ==> WellTyped(o, all, d)
    requires forall o :: o in all && o.kind.WORKFLOW? ==> WellTypedFrom(Child(all, o), d) && Shallow(Child(all, o), d, depth)
    ensures AllPresent(all, d) && ExpandAll(ops, all, d, depth).Nodes?
    decreases depth, 1, |ops|
  {
    if ops != [] {
      ShallowExpandsAll(ops[1..], all, d, depth);
      var o := ops[0];
      assert WellTyped(o, all, d);
      if o.kind.WORKFLOW? {
        ShallowExpands(Child(all, o), d, depth);
      }
    }
  }

  /** An operator of the workflow points to a revision that was not provided. */
  ghost predicate MissingAt(tid: Uuid, d: TrafoDict) {
    tid in d && d[tid].Workflow? && exists o :: o in d[tid].operators && o.trafoId !in d
  }

  /** All revisions were provided, but for an operator one of the other type is looked up. */
  ghost predicate MistypedAt(tid: Uuid, d: TrafoDict) {
    && tid in d && d[tid].Workflow? && AllPresent(d[tid].operators, d)
    && exists o :: o in d[tid].operators && (o.kind.COMPONENT? <==> d[Child(d[tid].operators, o)].Workflow?)
  }

  /** There is what the error says, at the end of a chain of nested workflows. */
  ghost predicate Justified(error: Nodes, tid: Uuid, d: TrafoDict, depth: nat, p: seq<Uuid>) {
    ChainFrom(LookedUp(d), tid, p) &&
    match error
    case NotFound => MissingAt(Last(p), d)
    case WrongType => MistypedAt(Last(p), d)
    case TooDeep => Workflows(LookedUp(d), p) == depth + 1
    case Nodes(_) => false
  }

  /** A component cannot be expanded, and every error on a workflow has its cause below it. */
  lemma ErrorsJustified(tid: Uuid, d: TrafoDict, depth: nat)
    requires tid in d
    ensures d[tid].Component? ==> Expand(tid, d, depth).WrongType?
    ensures d[tid].Workflow? && !Expand(tid, d, depth).Nodes? ==> exists p :: Justified(Expand(tid, d, depth), tid, d, depth, p)
  {
    if d[tid].Workflow? && !Expand(tid, d, depth).Nodes? {
      var p := Cause(tid, d, depth);
    }
  }

  lemma {:induction false} Cause(tid: Uuid, d: TrafoDict, depth: nat) returns (p: seq<Uuid>)
    requires tid in d && d[tid].Workflow? && !Expand(tid, d, depth).Nodes?
    ensures Justified(Expand(tid, d, depth), tid, d, depth, p)
    decreases depth, 0, 0
  {
    p := [tid];
    var ops := d[tid].operators;
    if AllPresent(ops, d) && depth > 0 {
      var o := FailingOperator(ops, ops, d, depth - 1);
      var child := Child(ops, o);
      if o.kind.WORKFLOW? && d[child].Workflow? {
        LookupEdge(d, tid, child);
        var tail := Cause(child, d, depth - 1);
        ChainCons(LookedUp(d), tid, tail);
        p := [tid] + tail;
      }
    }
  }

  lemma {:induction false} FailingOperator(ops: seq<Operator>, all: seq<Operator>, d: TrafoDict, depth: nat) returns (o: Operator)
    requires AllPresent(all, d) && (forall x :: x in ops ==> x in all) && !ExpandAll(ops, all, d, depth).Nodes?
    ensures o in ops && ExpandOne(o, all, d, depth) == ExpandAll(ops, all, d, depth)
  {
    if ExpandOne(ops[0], all, d, depth).Nodes? {
      o := FailingOperator(ops[1..], all, d, depth);
    } else {
      o := ops[0];
    }
  }

  /** The height of the tree is the longest chain of nested workflows below the root. */
  lemma {:induction false} MirrorHeight(nodes: seq<Node>, tid: Uuid, d: TrafoDict)
    requires IsTree(nodes, tid, d)
    ensures LongestFrom(LookedUp(d), tid, 1 + Height(nodes))
    ensures forall p :: ChainFrom(LookedUp(d), tid, p) ==> Last(p) in d && Distinct(p)
  {
    forall p | ChainFrom(LookedUp(d), tid, p)
      ensures Workflows(LookedUp(d), p) <= 1 + Height(nodes) && Last(p) in d && Distinct(p)
    {
      var t := ChainTree(nodes, tid, d, p);
      TreeAcyclic(nodes, tid, d, p);
    }
    var p := LongestChain(nodes, tid, d);
  }

  lemma {:induction false} LongestChain(nodes: seq<Node>, tid: Uuid, d: TrafoDict) returns (p: seq<Uuid>)
    requires IsTree(nodes, tid, d)
    ensures ChainFrom(LookedUp(d), tid, p) && Workflows(LookedUp(d), p) == 1 + Height(nodes)
    decreases nodes
  {
    HeightIsMax(nodes);
    p := [tid];
    if Height(nodes) > 0 {
      var i :| 0 <= i < |nodes| && NodeHeight(nodes[i]) == Height(nodes);
      var ops := d[tid].operators;
      assert Instantiates(nodes[i], ops[i], ops, d);
      LookupEdge(d, tid, Child(ops, ops[i]));
      var tail := LongestChain(nodes[i].subNodes, Child(ops, ops[i]), d);
      ChainCons(LookedUp(d), tid, tail);
      p := [tid] + tail;
    }
  }

  /** A chain does not come back: the tree of a revision would be lower than itself. */
  lemma TreeAcyclic(nodes: seq<Node>, tid: Uuid, d: TrafoDict, p: seq<Uuid>)
    requires IsTree(nodes, tid, d) && ChainFrom(LookedUp(d), tid, p)
    ensures Distinct(p)
  {
    forall i, j | 0 <= i < j < |p| ensures p[i] != p[j] {
      if p[i] == p[j] {
        ChainPart(LookedUp(d), tid, p, 0, i);
        var upper := ChainTree(nodes, tid, d, p[0..i + 1]);
        ChainPart(LookedUp(d), tid, p, i, j);
        var lower := ChainTree(upper, p[i], d, p[i..j + 1]);
        MirrorUnique(upper, lower, d[p[i]].operators, d[p[i]].operators, d);
      }
    }
  }

  lemma ChainPart(d: TrafoDict, tid: Uuid, p: seq<Uuid>, i: nat, j: nat)
    requires ChainFrom(d, tid, p) && i <= j < |p|
    ensures ChainFrom(d, p[i], p[i..j + 1]) && Last(p[i..j + 1]) == p[j]
  {
    var q := p[i..j + 1];
    forall k | 0 <= k < |q| - 1 ensures Edge(d, q[k], q[k + 1]) {
      assert Edge(d, p[i + k], p[i + k + 1]);
    }
  }

  /** Two independent recursions agree: the nesting level of a workflow is one more than the height of the
      node tree it is executed as. */
  lemma HeightIsNestingLevel(tid: Uuid, d: TrafoDict, depth: nat)
    requires tid in d && Expand(tid, d, depth).Nodes?
    ensures NestingLevel(tid, LookedUp(d), 0, {}) == Level(1 + Height(Expand(tid, d, depth).nodes))
  {
    ExpansionMirrors(tid, d, depth);
    var nodes := Expand(tid, d, depth).nodes;
    MirrorHeight(nodes, tid, d);
    NestingLevelExact(tid, LookedUp(d), 0);
    LongestUnique(LookedUp(d), tid, NestingLevel(tid, LookedUp(d), 0, {}).n, 1 + Height(nodes));
  }

  /** A workflow can be expanded at some recursion limit exactly if everything reachable is well typed and
      no cycle is. */
  lemma ExpandsSomewhere(tid: Uuid, d: TrafoDict)
    requires tid in d && d[tid].Workflow?
    ensures (exists depth: nat :: Expand(tid, d, depth).Nodes?) <==> WellTypedFrom(tid, d) && !ReachesCycle(LookedUp(d), tid)
  {
    if depth: nat :| Expand(tid, d, depth).Nodes? {
      ExpansionSucceeds(tid, d, depth);
      ExpansionMirrors(tid, d, depth);
      MirrorHeight(Expand(tid, d, depth).nodes, tid, d);
    }
    if WellTypedFrom(tid, d) && !ReachesCycle(LookedUp(d), tid) {
      forall p | ChainFrom(LookedUp(d), tid, p) ensures Last(p) in d {
        ChainStays(tid, d, p);
      }
      NestingLevelExact(tid, LookedUp(d), 0);
      var n := NestingLevel(tid, LookedUp(d), 0, {}).n;
      ExpansionSucceeds(tid, d, n);
      assert Expand(tid, d, n).Nodes?;
    }
  }

  lemma ChainStays(tid: Uuid, d: TrafoDict, p: seq<Uuid>)
    requires tid in d && WellTypedFrom(tid, d) && ChainFrom(LookedUp(d), tid, p)
    ensures Last(p) in d
  {
    var n := |p| - 1;
    if n > 0 {
      assert Edge(LookedUp(d), p[n - 1], p[n]);
      LookupEdge(d, p[n - 1], p[n]);
      ChainPart(LookedUp(d), tid, p, 0, n - 1);
      assert Last(p[0..n]) == p[n - 1];
    }
  }
}
