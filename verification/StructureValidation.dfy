/** Validation of the thing nodes of a structure: parents exist, stakeholder keys agree within a
    hierarchy, no parent chain is circular. Together the checks accept exactly the forests. */
module StructureValidation {
  import opened Wrappers

  /** Keys and ids are strings that are only compared; 0 is the empty string. */
  type Key = int
  const EMPTY: Key := 0

  datatype ThingNode = ThingNode(externalId: Key, stakeholderKey: Key, parent: Option<Key>)

  // ----- parents exist, keys are unique -----

  ghost predicate Known(nodes: seq<ThingNode>, id: Key) {
    exists n :: n in nodes && n.externalId == id
  }

  ghost predicate ParentsExist(nodes: seq<ThingNode>) {
    forall n :: n in nodes && n.parent.Some? ==> Known(nodes, n.parent.value)
  }

  method ValidateRootNodesParentIdsAreNone(nodes: seq<ThingNode>) returns (ok: bool)
    ensures ok <==> ParentsExist(nodes)
  {
    var externalIds := set n | n in nodes :: n.externalId;
    for i := 0 to |nodes|
      invariant forall k :: 0 <= k < i && nodes[k].parent.Some? ==> Known(nodes, nodes[k].parent.value)
    {
      var parent := nodes[i].parent;
      if parent.Some? && parent.value !in externalIds {
        assert !Known(nodes, parent.value);
        return false;
      }
    }
    return true;
  }

  ghost predicate UniqueKeyIdPairs(nodes: seq<ThingNode>) {
    forall i, j :: 0 <= i < j < |nodes| ==>
      (nodes[i].stakeholderKey, nodes[i].externalId) != (nodes[j].stakeholderKey, nodes[j].externalId)
  }

  method CheckForDuplicateKeyAndIdPairs(nodes: seq<ThingNode>) returns (ok: bool)
    ensures ok <==> UniqueKeyIdPairs(nodes)
  {
    var seen: set<(Key, Key)> := {};
    for i := 0 to |nodes|
      invariant UniqueKeyIdPairs(nodes[..i])
      invariant forall pair :: pair in seen <==>
        exists k :: 0 <= k < i && pair == (nodes[k].stakeholderKey, nodes[k].externalId)
    {
      var pair := (nodes[i].stakeholderKey, nodes[i].externalId);
      if pair in seen {
        return false;
      }
      seen := seen + {pair};
    }
    assert nodes[..|nodes|] == nodes;
    return true;
  }

  // ----- the circular reference check -----

  function ById(nodes: seq<ThingNode>): (m: map<Key, ThingNode>)
    ensures forall id :: id in m ==> m[id] in nodes && m[id].externalId == id
    ensures forall n :: n in nodes ==> n.externalId in m
  {
    if nodes == [] then map[]
    else
      var n := nodes[|nodes| - 1];
      ById(nodes[..|nodes| - 1])[n.externalId := n]
  }

  /** Of several nodes with one id the last counts. */
  lemma {:induction false} ByIdLast(nodes: seq<ThingNode>, k: nat)
    requires k < |nodes| && forall j :: k < j < |nodes| ==> nodes[j].externalId != nodes[k].externalId
    ensures ById(nodes)[nodes[k].externalId] == nodes[k]
  {
    if k < |nodes| - 1 {
      ByIdLast(nodes[..|nodes| - 1], k);
    }
  }

  predicate HasParentIn(n: ThingNode, byId: map<Key, ThingNode>) {
    n.parent.Some? && n.parent.value != EMPTY && n.parent.value in byId
  }

  /** Follows the parents until there is none; false if an id comes up twice. */
  predicate Visit(n: ThingNode, byId: map<Key, ThingNode>, visited: set<Key>)
    requires n.externalId in byId && forall id :: id in byId ==> byId[id].externalId == id
    decreases byId.Keys - visited
  {
    n.externalId !in visited &&
    (HasParentIn(n, byId) ==>
      assert n.externalId in byId.Keys - visited;
      Visit(byId[n.parent.value], byId, visited + {n.externalId}))
  }

  method VisitNode(n: ThingNode, byId: map<Key, ThingNode>, visited: set<Key>) returns (ok: bool, visited': set<Key>)
    requires n.externalId in byId && forall id :: id in byId ==> byId[id].externalId == id
    ensures ok <==> Visit(n, byId, visited)
    ensures ok ==> visited' == visited
    decreases byId.Keys - visited
  {
    if n.externalId in visited {
      return false, visited;
    }
    assert n.externalId in byId.Keys - visited;
    visited' := visited + {n.externalId};
    if HasParentIn(n, byId) {
      ok, visited' := VisitNode(byId[n.parent.value], byId, visited');
      if !ok {
        return;
      }
    }
    return true, visited' - {n.externalId};
  }

  /** A node, its parent, the parent of that, and so on for a while. Empty and unknown ids lead nowhere. */
  ghost predicate ParentChain(byId: map<Key, ThingNode>, n: ThingNode, p: seq<ThingNode>) {
    p != [] && p[0] == n &&
    forall i :: 0 <= i < |p| - 1 ==>
      p[i].parent.Some? && p[i].parent.value != EMPTY && p[i].parent.value in byId && p[i + 1] == byId[p[i].parent.value]
  }

  /** No id twice, and none of the given ones. */
  ghost predicate NoRepetition(p: seq<ThingNode>, visited: set<Key>) {
    && (forall i, j :: 0 <= i < j < |p| ==> p[i].externalId != p[j].externalId)
    && (forall i :: 0 <= i < |p| ==> p[i].externalId !in visited)
  }

  ghost predicate NoCircularReference(nodes: seq<ThingNode>) {
    forall n, p :: n in nodes && ParentChain(ById(nodes), n, p) ==> NoRepetition(p, {})
  }

  lemma ChainTail(byId: map<Key, ThingNode>, n: ThingNode, p: seq<ThingNode>)
    requires ParentChain(byId, n, p) && |p| > 1
    ensures HasParentIn(n, byId) && ParentChain(byId, byId[n.parent.value], p[1..])
  {
    assert HasParentIn(p[0], byId) && p[0 + 1] == byId[p[0].parent.value];
  }

  lemma ChainCons(byId: map<Key, ThingNode>, n: ThingNode, p: seq<ThingNode>)
    requires HasParentIn(n, byId) && ParentChain(byId, byId[n.parent.value], p)
    ensures ParentChain(byId, n, [n] + p)
  {
    var q := [n] + p;
    forall i | 0 <= i < |q| - 1 ensures HasParentIn(q[i], byId) && q[i + 1] == byId[q[i].parent.value] {
      if i > 0 {
        assert q[i] == p[i - 1] && q[i + 1] == p[i];
      }
    }
  }

  lemma RepetitionCons(n: ThingNode, p: seq<ThingNode>, visited: set<Key>)
    ensures NoRepetition([n] + p, visited) <==> n.externalId !in visited && NoRepetition(p, visited + {n.externalId})
  {
    var q := [n] + p;
    assert q[0] == n && forall i :: 0 <= i < |p| ==> q[i + 1] == p[i];
    if n.externalId !in visited && NoRepetition(p, visited + {n.externalId}) {
      assert forall i :: 1 <= i < |q| ==> q[i] == p[i - 1];
    }
    if NoRepetition(q, visited) {
      forall i, j | 0 <= i < j < |p| ensures p[i].externalId != p[j].externalId {
        assert q[i + 1].externalId != q[j + 1].externalId;
      }
      forall i | 0 <= i < |p| ensures p[i].externalId !in visited + {n.externalId} {
        assert q[0].externalId != q[i + 1].externalId;
      }
    }
  }

  /** The recursion accepts exactly if no chain of parents comes back to an id. */
  lemma {:induction false} VisitExact(n: ThingNode, byId: map<Key, ThingNode>, visited: set<Key>)
    requires n.externalId in byId && forall id :: id in byId ==> byId[id].externalId == id
    ensures Visit(n, byId, visited) <==> forall p :: ParentChain(byId, n, p) ==> NoRepetition(p, visited)
    decreases byId.Keys - visited
  {
    var visited' := visited + {n.externalId};
    assert ParentChain(byId, n, [n]);
    RepetitionCons(n, [], visited);
    assert [n] + [] == [n];
    if n.externalId !in visited && HasParentIn(n, byId) {
      var m := byId[n.parent.value];
      assert n.externalId in byId.Keys - visited;
      VisitExact(m, byId, visited');
      if !Visit(m, byId, visited') {
        var p :| ParentChain(byId, m, p) && !NoRepetition(p, visited');
        ChainCons(byId, n, p);
        RepetitionCons(n, p, visited);
      }
    }
    if Visit(n, byId, visited) {
      forall p | ParentChain(byId, n, p) ensures NoRepetition(p, visited) {
        assert p == [n] + p[1..];
        if |p| > 1 {
          ChainTail(byId, n, p);
        } else {
          assert p[1..] == [];
        }
        RepetitionCons(n, p[1..], visited);
      }
    }
  }

  lemma NoCircularReferenceIsVisited(nodes: seq<ThingNode>)
    ensures NoCircularReference(nodes) <==> forall n :: n in nodes ==> Visit(n, ById(nodes), {})
  {
    forall n | n in nodes
      ensures Visit(n, ById(nodes), {}) <==> forall p :: ParentChain(ById(nodes), n, p) ==> NoRepetition(p, {})
    {
      VisitExact(n, ById(nodes), {});
    }
  }

  method CheckForCircularReference(nodes: seq<ThingNode>) returns (ok: bool)
    ensures ok <==> NoCircularReference(nodes)
  {
    hide Visit, NoCircularReference, ById;
    NoCircularReferenceIsVisited(nodes);
    var byId := ById(nodes);
    var visited: set<Key> := {};
    for i := 0 to |nodes|
      invariant visited == {} && forall k :: 0 <= k < i ==> Visit(nodes[k], byId, {})
    {
      if nodes[i].externalId !in visited {
        ok, visited := VisitNode(nodes[i], byId, visited);
        if !ok {
          return;
        }
      }
    }
    return true;
  }

  // ----- the stakeholder key check -----

  function Children(nodes: seq<ThingNode>, id: Key): (c: seq<ThingNode>)
    ensures forall n :: n in c <==> n in nodes && n.parent == Some(id)
  {
    if nodes == [] then []
    else (if nodes[0].parent == Some(id) then [nodes[0]] else []) + Children(nodes[1..], id)
  }

  ghost function Ids(nodes: seq<ThingNode>): set<Key> {
    set n | n in nodes :: n.externalId
  }

  /** The depth-first search; it also ends when parent chains are circular. */
  ghost predicate Dfs(nodes: seq<ThingNode>, expected: Key, stack: seq<ThingNode>, visited: set<Key>)
    requires forall n :: n in stack ==> n in nodes
    decreases Ids(nodes) - visited, |stack|
  {
    stack == [] ||
    (var n, rest := stack[|stack| - 1], stack[..|stack| - 1];
     if n.externalId in visited then Dfs(nodes, expected, rest, visited)
     else
       assert n.externalId in Ids(nodes) - visited;
       n.stakeholderKey == expected &&
       Dfs(nodes, expected, rest + Children(nodes, n.externalId), visited + {n.externalId}))
  }

  ghost predicate KeysConsistent(nodes: seq<ThingNode>) {
    forall r :: r in nodes && r.parent.None? ==> Dfs(nodes, r.stakeholderKey, [r], {})
  }

  lemma DfsStep(nodes: seq<ThingNode>, expected: Key, stack: seq<ThingNode>, visited: set<Key>)
    requires stack != [] && forall n :: n in stack ==> n in nodes
    ensures var n, rest := stack[|stack| - 1], stack[..|stack| - 1];
      Dfs(nodes, expected, stack, visited) ==
        if n.externalId in visited then Dfs(nodes, expected, rest, visited)
        else n.stakeholderKey == expected && Dfs(nodes, expected, rest + Children(nodes, n.externalId), visited + {n.externalId})
  {
  }

  lemma DfsEnds(nodes: seq<ThingNode>, expected: Key, visited: set<Key>)
    ensures Dfs(nodes, expected, [], visited)
  {
  }

  method CheckStakeholderKeyConsistency(nodes: seq<ThingNode>) returns (ok: bool)
    ensures ok <==> KeysConsistent(nodes)
  {
    hide Dfs, Children;
    for i := 0 to |nodes|
      invariant forall k :: 0 <= k < i && nodes[k].parent.None? ==> Dfs(nodes, nodes[k].stakeholderKey, [nodes[k]], {})
    {
      var root := nodes[i];
      if root.parent.None? {
        var expected := root.stakeholderKey;
        var stack, visited := [root], {};
        while stack != []
          invariant forall n :: n in stack ==> n in nodes
          invariant Dfs(nodes, expected, [root], {}) == Dfs(nodes, expected, stack, visited)
          decreases Ids(nodes) - visited, |stack|
        {
          DfsStep(nodes, expected, stack, visited);
          var current := stack[|stack| - 1];
          stack := stack[..|stack| - 1];
          if current.externalId !in visited {
            assert current.externalId in Ids(nodes) - visited;
            visited := visited + {current.externalId};
            if current.stakeholderKey != expected {
              return false;
            }
            stack := stack + Children(nodes, current.externalId);
          }
        }
        DfsEnds(nodes, expected, visited);
      }
    }
    return true;
  }

  // ----- the reference: paths from a node up to a root -----

  ghost predicate UpPath(nodes: seq<ThingNode>, n: ThingNode, p: seq<ThingNode>) {
    p != [] && p[0] == n && (forall i :: 0 <= i < |p| ==> p[i] in nodes) &&
    forall i :: 0 <= i < |p| - 1 ==> p[i].parent == Some(p[i + 1].externalId)
  }

  ghost predicate Below(nodes: seq<ThingNode>, n: ThingNode, top: ThingNode) {
    exists p :: UpPath(nodes, n, p) && p[|p| - 1] == top
  }

  ghost predicate UniqueIds(nodes: seq<ThingNode>) {
    forall a, b :: a in nodes && b in nodes && a.externalId == b.externalId ==> a == b
  }

  ghost predicate NonEmptyIds(nodes: seq<ThingNode>) {
    forall n :: n in nodes ==> n.externalId != EMPTY
  }

  lemma PathJoin(nodes: seq<ThingNode>, n: ThingNode, p: seq<ThingNode>, q: seq<ThingNode>)
    requires UpPath(nodes, n, p) && q != [] && UpPath(nodes, q[0], q) && p[|p| - 1].parent == Some(q[0].externalId)
    ensures UpPath(nodes, n, p + q)
  {
  }

  lemma PathTail(nodes: seq<ThingNode>, n: ThingNode, p: seq<ThingNode>, i: nat)
    requires UpPath(nodes, n, p) && i < |p|
    ensures UpPath(nodes, p[i], p[i..])
  {
  }

  // ----- the search visits exactly the descendants -----

  /** No external id twice below r. */
  ghost predicate IdsDistinctBelow(nodes: seq<ThingNode>, r: ThingNode) {
    forall m, n :: Below(nodes, m, r) && Below(nodes, n, r) && m.externalId == n.externalId ==> m == n
  }

  /** The children of visited nodes are visited or wait on the stack. */
  ghost predicate Frontier(nodes: seq<ThingNode>, r: ThingNode, stack: seq<ThingNode>, visited: set<Key>) {
    forall n, c :: Below(nodes, n, r) && n.externalId in visited && c in nodes && c.parent == Some(n.externalId) ==>
      c.externalId in visited || c in stack
  }

  ghost predicate AllBelow(nodes: seq<ThingNode>, stack: seq<ThingNode>, expected: Key) {
    forall s, n :: s in stack && Below(nodes, n, s) ==> n.stakeholderKey == expected
  }

  ghost predicate VisitedKeys(nodes: seq<ThingNode>, r: ThingNode, visited: set<Key>, expected: Key) {
    forall n :: Below(nodes, n, r) && n.externalId in visited ==> n.stakeholderKey == expected
  }

  ghost predicate Searching(nodes: seq<ThingNode>, r: ThingNode, stack: seq<ThingNode>, visited: set<Key>, expected: Key) {
    && (forall n :: n in stack ==> n in nodes && Below(nodes, n, r))
    && Frontier(nodes, r, stack, visited) && VisitedKeys(nodes, r, visited, expected)
  }

  /** In a hierarchy without repeated ids the search compares exactly the nodes below its stack. */
  lemma {:induction false} DfsExact(nodes: seq<ThingNode>, r: ThingNode, expected: Key, stack: seq<ThingNode>, visited: set<Key>)
    requires IdsDistinctBelow(nodes, r) && Searching(nodes, r, stack, visited, expected)
    ensures Dfs(nodes, expected, stack, visited) <==> AllBelow(nodes, stack, expected)
    decreases Ids(nodes) - visited, |stack|
  {
    if stack != [] {
      var n, rest := stack[|stack| - 1], stack[..|stack| - 1];
      assert stack == rest + [n];
      if n.externalId in visited {
        PopVisited(nodes, r, expected, rest, visited, n);
        DfsExact(nodes, r, expected, rest, visited);
      } else {
        PopNew(nodes, r, expected, rest, visited, n);
        if n.stakeholderKey == expected {
          assert n.externalId in Ids(nodes) - visited;
          DfsExact(nodes, r, expected, rest + Children(nodes, n.externalId), visited + {n.externalId});
        }
      }
    }
  }

  lemma PopVisited(nodes: seq<ThingNode>, r: ThingNode, expected: Key, rest: seq<ThingNode>, visited: set<Key>, n: ThingNode)
    requires n.externalId in visited && Searching(nodes, r, rest + [n], visited, expected)
    requires IdsDistinctBelow(nodes, r)
    ensures Searching(nodes, r, rest, visited, expected)
    ensures AllBelow(nodes, rest, expected) <==> AllBelow(nodes, rest + [n], expected)
  {
    hide Below, IdsDistinctBelow;
    assert n in rest + [n];
    forall m, c | Below(nodes, m, r) && m.externalId in visited && c in nodes && c.parent == Some(m.externalId)
      ensures c.externalId in visited || c in rest
    {
      assert c.externalId in visited || c in rest + [n];
    }
    if AllBelow(nodes, rest, expected) {
      forall m | Below(nodes, m, n) ensures m.stakeholderKey == expected {
        VisitedCovered(nodes, r, expected, rest, visited, m, n);
      }
    }
  }

  lemma PopNew(nodes: seq<ThingNode>, r: ThingNode, expected: Key, rest: seq<ThingNode>, visited: set<Key>, n: ThingNode)
    requires Searching(nodes, r, rest + [n], visited, expected) && IdsDistinctBelow(nodes, r)
    ensures n.stakeholderKey == expected ==>
      Searching(nodes, r, rest + Children(nodes, n.externalId), visited + {n.externalId}, expected)
    ensures n.stakeholderKey == expected && AllBelow(nodes, rest + Children(nodes, n.externalId), expected)
      <==> AllBelow(nodes, rest + [n], expected)
  {
    var children := Children(nodes, n.externalId);
    var next, visited' := rest + children, visited + {n.externalId};
    assert n in rest + [n];
    if n.stakeholderKey == expected {
      NewSearching(nodes, r, expected, rest, visited, n);
    }
    if AllBelow(nodes, rest + [n], expected) {
      assert UpPath(nodes, n, [n]) && Below(nodes, n, n);
      forall s, m | s in next && Below(nodes, m, s) ensures m.stakeholderKey == expected {
        if s in children {
          BelowChild(nodes, m, s, n);
        }
      }
    }
    if n.stakeholderKey == expected && AllBelow(nodes, next, expected) {
      forall m | Below(nodes, m, n) ensures m.stakeholderKey == expected {
        VisitedCovered(nodes, r, expected, next, visited', m, n);
      }
    }
  }

  lemma OnlyOneBelow(nodes: seq<ThingNode>, r: ThingNode, n: ThingNode)
    requires IdsDistinctBelow(nodes, r) && Below(nodes, n, r)
    ensures forall m :: Below(nodes, m, r) && m.externalId == n.externalId ==> m == n
  {
  }

  lemma NewSearching(nodes: seq<ThingNode>, r: ThingNode, expected: Key, rest: seq<ThingNode>, visited: set<Key>, n: ThingNode)
    requires Searching(nodes, r, rest + [n], visited, expected) && IdsDistinctBelow(nodes, r) && n.stakeholderKey == expected
    ensures Searching(nodes, r, rest + Children(nodes, n.externalId), visited + {n.externalId}, expected)
  {
    hide Below, UpPath, IdsDistinctBelow;
    var next := rest + Children(nodes, n.externalId);
    assert n in rest + [n];
    OnlyOneBelow(nodes, r, n);
    forall c | c in next ensures c in nodes && Below(nodes, c, r) {
      if c !in rest {
        SelfBelow(nodes, c);
        BelowChild(nodes, c, c, n);
        BelowTransitive(nodes, c, n, r);
      } else {
        assert c in rest + [n];
      }
    }
    forall m, c | Below(nodes, m, r) && m.externalId in visited + {n.externalId} && c in nodes && c.parent == Some(m.externalId)
      ensures c.externalId in visited + {n.externalId} || c in next
    {
      if m.externalId in visited {
        assert c.externalId in visited || c in rest + [n];
      }
    }
  }

  lemma BelowTransitive(nodes: seq<ThingNode>, m: ThingNode, n: ThingNode, r: ThingNode)
    requires Below(nodes, m, n) && Below(nodes, n, r)
    ensures Below(nodes, m, r)
  {
    var p: seq<ThingNode> :| UpPath(nodes, m, p) && p[|p| - 1] == n;
    var q: seq<ThingNode> :| UpPath(nodes, n, q) && q[|q| - 1] == r;
    if |q| > 1 {
      NextIsParent(nodes, n, q);
      PathTail(nodes, n, q, 1);
      PathJoin(nodes, m, p, q[1..]);
      assert (p + q[1..])[|p + q[1..]| - 1] == r;
    }
  }

  lemma BelowChild(nodes: seq<ThingNode>, m: ThingNode, c: ThingNode, n: ThingNode)
    requires n in nodes && c.parent == Some(n.externalId) && Below(nodes, m, c)
    ensures Below(nodes, m, n)
  {
    var p: seq<ThingNode> :| UpPath(nodes, m, p) && p[|p| - 1] == c;
    PathJoin(nodes, m, p, [n]);
    assert (p + [n])[|p|] == n;
  }

  lemma OnPathBelow(nodes: seq<ThingNode>, n: ThingNode, p: seq<ThingNode>, i: nat)
    requires UpPath(nodes, n, p) && i < |p|
    ensures Below(nodes, n, p[i]) && Below(nodes, p[i], p[|p| - 1])
  {
    PathTail(nodes, n, p, i);
    assert p[i..][|p[i..]| - 1] == p[|p| - 1];
    assert UpPath(nodes, n, p[..i + 1]) && p[..i + 1][i] == p[i];
  }

  lemma VisitedCovered(nodes: seq<ThingNode>, r: ThingNode, expected: Key, stack: seq<ThingNode>, visited: set<Key>, m: ThingNode, top: ThingNode)
    requires Searching(nodes, r, stack, visited, expected) && AllBelow(nodes, stack, expected)
    requires Below(nodes, top, r) && top.externalId in visited && Below(nodes, m, top)
    ensures m.stakeholderKey == expected
  {
    var p: seq<ThingNode> :| UpPath(nodes, m, p) && p[|p| - 1] == top;
    var k := |p| - 1;
    while k > 0
      invariant 0 <= k < |p| && p[k].externalId in visited
    {
      OnPathBelow(nodes, m, p, k);
      OnPathBelow(nodes, m, p, k - 1);
      BelowTransitive(nodes, p[k], top, r);
      assert p[k - 1].parent == Some(p[k - 1 + 1].externalId);
      if p[k - 1].externalId !in visited {
        assert p[k - 1] in stack && Below(nodes, m, p[k - 1]);
        return;
      }
      k := k - 1;
    }
    BelowTransitive(nodes, m, top, r);
  }

  lemma RootSearch(nodes: seq<ThingNode>, r: ThingNode)
    requires r in nodes && IdsDistinctBelow(nodes, r)
    ensures Dfs(nodes, r.stakeholderKey, [r], {}) <==> AllBelow(nodes, [r], r.stakeholderKey)
  {
    assert UpPath(nodes, r, [r]) && Below(nodes, r, r);
    DfsExact(nodes, r, r.stakeholderKey, [r], {});
  }

  // ----- when the key check is right -----

  /** Every node carries the key of every root it is below. */
  ghost predicate KeysMatch(nodes: seq<ThingNode>) {
    forall r, n :: r in nodes && r.parent.None? && Below(nodes, n, r) ==> n.stakeholderKey == r.stakeholderKey
  }

  ghost predicate HierarchiesDistinct(nodes: seq<ThingNode>) {
    forall r :: r in nodes && r.parent.None? ==> IdsDistinctBelow(nodes, r)
  }

  lemma SamePairIsSame(nodes: seq<ThingNode>, m: ThingNode, n: ThingNode)
    requires UniqueKeyIdPairs(nodes) && m in nodes && n in nodes
    requires m.externalId == n.externalId && m.stakeholderKey == n.stakeholderKey
    ensures m == n
  {
    var i :| 0 <= i < |nodes| && nodes[i] == m;
    var j :| 0 <= j < |nodes| && nodes[j] == n;
    assert i == j;
  }

  lemma BelowInNodes(nodes: seq<ThingNode>, n: ThingNode, r: ThingNode)
    requires Below(nodes, n, r)
    ensures n in nodes && r in nodes
  {
    var p: seq<ThingNode> :| UpPath(nodes, n, p) && p[|p| - 1] == r;
    assert p[0] in nodes && p[|p| - 1] in nodes;
  }

  /** The key check alone does not tell whether all keys match: it does exactly if, besides, no external
      id occurs twice in one hierarchy. */
  lemma KeysMatchExactly(nodes: seq<ThingNode>)
    requires UniqueKeyIdPairs(nodes)
    ensures KeysMatch(nodes) <==> KeysConsistent(nodes) && HierarchiesDistinct(nodes)
  {
    hide Below, UniqueKeyIdPairs, Dfs;
    if KeysMatch(nodes) {
      forall r, m, n | r in nodes && r.parent.None? && Below(nodes, m, r) && Below(nodes, n, r) && m.externalId == n.externalId
        ensures m == n
      {
        BelowInNodes(nodes, m, r);
        BelowInNodes(nodes, n, r);
        SamePairIsSame(nodes, m, n);
      }
    }
    if HierarchiesDistinct(nodes) {
      forall r | r in nodes && r.parent.None?
        ensures Dfs(nodes, r.stakeholderKey, [r], {}) <==> AllBelow(nodes, [r], r.stakeholderKey)
      {
        RootSearch(nodes, r);
      }
      if KeysConsistent(nodes) {
        forall r, n | r in nodes && r.parent.None? && Below(nodes, n, r) ensures n.stakeholderKey == r.stakeholderKey {
          assert Dfs(nodes, r.stakeholderKey, [r], {}) && r in [r];
        }
      }
    }
  }

  // ----- the circular reference check follows up-paths -----

  lemma {:induction false} VisitReachesRoot(nodes: seq<ThingNode>, n: ThingNode, visited: set<Key>)
    requires NonEmptyIds(nodes) && ParentsExist(nodes)
    requires n in nodes && Visit(n, ById(nodes), visited)
    ensures exists r: ThingNode :: r.parent.None? && Below(nodes, n, r)
    decreases ById(nodes).Keys - visited
  {
    assert UpPath(nodes, n, [n]);
    if n.parent.None? {
      assert Below(nodes, n, n);
    } else {
      var byId := ById(nodes);
      assert Known(nodes, n.parent.value);
      var m := byId[n.parent.value];
      assert n.externalId in byId.Keys - visited;
      VisitReachesRoot(nodes, m, visited + {n.externalId});
      var r: ThingNode :| r.parent.None? && Below(nodes, m, r);
      var p: seq<ThingNode> :| UpPath(nodes, m, p) && p[|p| - 1] == r;
      PathJoin(nodes, n, [n], p);
      assert ([n] + p)[|p|] == r;
      assert Below(nodes, n, r);
    }
  }

  lemma NextIsParent(nodes: seq<ThingNode>, n: ThingNode, p: seq<ThingNode>)
    requires UpPath(nodes, n, p)
    ensures |p| > 1 ==> n.parent == Some(p[1].externalId)
  {
    assert |p| > 1 ==> p[0].parent == Some(p[0 + 1].externalId);
  }

  /** Every node is below a root and carries the stakeholder key of each root it is below. */
  ghost predicate Forest(nodes: seq<ThingNode>) {
    && (forall n :: n in nodes ==> exists r: ThingNode :: r.parent.None? && Below(nodes, n, r))
    && KeysMatch(nodes)
  }

  /** In a forest a parent id leads to one parent, even where other hierarchies use the same id. */
  lemma ParentIsOne(nodes: seq<ThingNode>, n: ThingNode, r: ThingNode, m: ThingNode, m': ThingNode)
    requires Forest(nodes) && UniqueKeyIdPairs(nodes)
    requires r.parent.None? && Below(nodes, m, r) && Below(nodes, n, n) && m' in nodes
    requires n.parent == Some(m.externalId) == Some(m'.externalId)
    ensures m == m'
  {
    hide Below, UniqueKeyIdPairs;
    BelowInNodes(nodes, m, r);
    var r': ThingNode :| r'.parent.None? && Below(nodes, m', r');
    BelowInNodes(nodes, m', r');
    BelowChild(nodes, n, n, m);
    BelowChild(nodes, n, n, m');
    BelowTransitive(nodes, n, m, r);
    BelowTransitive(nodes, n, m', r');
    assert n.stakeholderKey == r.stakeholderKey == r'.stakeholderKey;
    SamePairIsSame(nodes, m, m');
  }

  lemma SelfBelow(nodes: seq<ThingNode>, n: ThingNode)
    requires n in nodes
    ensures Below(nodes, n, n)
  {
    assert UpPath(nodes, n, [n]) && [n][|[n]| - 1] == n;
  }

  /** The next node on a path to a root is the only one with the parent's id. */
  lemma NextIsOne(nodes: seq<ThingNode>, n: ThingNode, p: seq<ThingNode>, m: ThingNode)
    requires Forest(nodes) && UniqueKeyIdPairs(nodes) && UpPath(nodes, n, p) && |p| > 1 && p[|p| - 1].parent.None?
    requires m in nodes && n.parent == Some(m.externalId)
    ensures m == p[1]
  {
    hide Below, Forest, UniqueKeyIdPairs;
    NextIsParent(nodes, n, p);
    OnPathBelow(nodes, n, p, 1);
    SelfBelow(nodes, n);
    ParentIsOne(nodes, n, p[|p| - 1], p[1], m);
  }

  /** Up-paths in a forest are determined by their start, so two that end in roots are the same. */
  lemma {:induction false} RootPathUnique(nodes: seq<ThingNode>, n: ThingNode, p: seq<ThingNode>, q: seq<ThingNode>)
    requires Forest(nodes) && UniqueKeyIdPairs(nodes) && UpPath(nodes, n, p) && UpPath(nodes, n, q)
    requires p[|p| - 1].parent.None? && q[|q| - 1].parent.None?
    ensures p == q
    decreases |p|
  {
    hide Forest, UniqueKeyIdPairs;
    NextIsParent(nodes, n, p);
    NextIsParent(nodes, n, q);
    if |p| > 1 && |q| > 1 {
      assert q[1] in nodes;
      NextIsOne(nodes, n, p, q[1]);
      PathTail(nodes, n, p, 1);
      PathTail(nodes, n, q, 1);
      RootPathUnique(nodes, p[1], p[1..], q[1..]);
      assert p == [n] + p[1..] && q == [n] + q[1..];
    }
  }

  lemma LaterIdDiffers(nodes: seq<ThingNode>, n: ThingNode, p: seq<ThingNode>, i: nat)
    requires Forest(nodes) && UniqueKeyIdPairs(nodes) && UpPath(nodes, n, p) && p[|p| - 1].parent.None?
    requires 0 < i < |p|
    ensures p[i].externalId != n.externalId
  {
    hide Below, UniqueKeyIdPairs;
    var r := p[|p| - 1];
    OnPathBelow(nodes, n, p, 0);
    OnPathBelow(nodes, n, p, i);
    assert n == p[0] && p[0] in nodes && p[i] in nodes && r in nodes;
    assert p[i].stakeholderKey == r.stakeholderKey == n.stakeholderKey;
    if p[i].externalId == n.externalId {
      SamePairIsSame(nodes, n, p[i]);
      PathTail(nodes, n, p, i);
      RootPathUnique(nodes, n, p, p[i..]);
    }
  }

  lemma {:induction false} RootPathVisits(nodes: seq<ThingNode>, n: ThingNode, p: seq<ThingNode>, visited: set<Key>)
    requires Forest(nodes) && UniqueKeyIdPairs(nodes) && UpPath(nodes, n, p) && p[|p| - 1].parent.None?
    requires forall i :: 0 <= i < |p| ==> p[i].externalId !in visited
    ensures Visit(n, ById(nodes), visited)
    decreases |p|
  {
    hide Forest, UniqueKeyIdPairs, ById;
    NextIsParent(nodes, n, p);
    if |p| > 1 {
      assert p[1] in nodes;
      NextIsOne(nodes, n, p, ById(nodes)[p[1].externalId]);
      forall i | 0 <= i < |p[1..]| ensures p[1..][i].externalId !in visited + {n.externalId} {
        LaterIdDiffers(nodes, n, p, i + 1);
      }
      PathTail(nodes, n, p, 1);
      RootPathVisits(nodes, p[1], p[1..], visited + {n.externalId});
    }
  }

  // ----- main results -----

  ghost predicate Accepted(nodes: seq<ThingNode>) {
    ParentsExist(nodes) && UniqueKeyIdPairs(nodes) && KeysConsistent(nodes) && NoCircularReference(nodes)
  }

  /** What the validators accept together is a forest exactly if no external id occurs twice in one
      hierarchy; and every forest without repeated pairs is accepted. */
  lemma AcceptedExactlyForests(nodes: seq<ThingNode>)
    requires NonEmptyIds(nodes)
    ensures Accepted(nodes) && HierarchiesDistinct(nodes) <==> UniqueKeyIdPairs(nodes) && Forest(nodes)
  {
    hide Below, UniqueKeyIdPairs, KeysConsistent, HierarchiesDistinct, KeysMatch, NoCircularReference;
    NoCircularReferenceIsVisited(nodes);
    if UniqueKeyIdPairs(nodes) {
      KeysMatchExactly(nodes);
      if Accepted(nodes) && HierarchiesDistinct(nodes) {
        forall n | n in nodes ensures exists r: ThingNode :: r.parent.None? && Below(nodes, n, r) {
          VisitReachesRoot(nodes, n, {});
        }
      }
      if Forest(nodes) {
        ForestHasParents(nodes);
      }
    }
  }

  lemma RootAbove(nodes: seq<ThingNode>, n: ThingNode)
    requires Forest(nodes) && n in nodes
    ensures exists r: ThingNode :: r.parent.None? && Below(nodes, n, r)
  {
  }

  lemma ForestHasParents(nodes: seq<ThingNode>)
    requires Forest(nodes) && UniqueKeyIdPairs(nodes)
    ensures ParentsExist(nodes) && forall n :: n in nodes ==> Visit(n, ById(nodes), {})
  {
    hide Visit, ById, Forest, UniqueKeyIdPairs;
    forall n | n in nodes
      ensures Visit(n, ById(nodes), {}) && (n.parent.Some? ==> Known(nodes, n.parent.value))
    {
      RootAbove(nodes, n);
      var r: ThingNode :| r.parent.None? && Below(nodes, n, r);
      var p: seq<ThingNode> :| UpPath(nodes, n, p) && p[|p| - 1] == r;
      RootPathVisits(nodes, n, p, {});
      NextIsParent(nodes, n, p);
      assert |p| > 1 ==> p[1] in nodes;
    }
  }

  /** With unique external ids the validators together accept exactly the forests. */
  lemma UniqueIdsForests(nodes: seq<ThingNode>)
    requires UniqueIds(nodes) && NonEmptyIds(nodes)
    ensures Accepted(nodes) <==> UniqueKeyIdPairs(nodes) && Forest(nodes)
  {
    forall r, m, n | Below(nodes, m, r) && Below(nodes, n, r) && m.externalId == n.externalId ensures m == n {
      BelowInNodes(nodes, m, r);
      BelowInNodes(nodes, n, r);
    }
    AcceptedExactlyForests(nodes);
  }

  /** Only pairs of key and external id are checked for uniqueness. If two nodes share an external id
      under different keys, the search skips the second one and accepts a wrong key. */
  lemma SharedExternalIdHidesWrongKey(nodes: seq<ThingNode>)
    requires nodes == [ThingNode(1, 7, None), ThingNode(2, 8, Some(1)), ThingNode(2, 7, Some(1))]
    ensures Accepted(nodes) && !KeysMatch(nodes)
  {
    hide Dfs, Visit, NoCircularReference, ById;
    var root, bad := nodes[0], nodes[1];
    assert Known(nodes, 1);
    SharedExternalIdSearch(nodes);
    SharedExternalIdVisits(nodes);
    NoCircularReferenceIsVisited(nodes);
    assert bad in nodes && UpPath(nodes, bad, [bad, root]) && [bad, root][1] == root;
    assert Below(nodes, bad, root);
  }

  lemma SharedExternalIdVisits(nodes: seq<ThingNode>)
    requires nodes == [ThingNode(1, 7, None), ThingNode(2, 8, Some(1)), ThingNode(2, 7, Some(1))]
    ensures forall n :: n in nodes ==> Visit(n, ById(nodes), {})
  {
    hide ById;
    var byId := ById(nodes);
    assert nodes[0] in nodes;
    assert 1 in byId && byId[1] == nodes[0];
    assert Visit(nodes[0], byId, {2}) && Visit(nodes[0], byId, {});
  }

  lemma SharedExternalIdSearch(nodes: seq<ThingNode>)
    requires nodes == [ThingNode(1, 7, None), ThingNode(2, 8, Some(1)), ThingNode(2, 7, Some(1))]
    ensures Dfs(nodes, 7, [nodes[0]], {})
  {
    var root, bad, good := nodes[0], nodes[1], nodes[2];
    assert Children(nodes, 1) == [bad, good] by {
      assert nodes[1..] == [bad, good] && nodes[1..][1..] == [good] && nodes[1..][1..][1..] == [];
      assert Children([good], 1) == [good];
      assert Children([bad, good], 1) == [bad, good];
    }
    assert Children(nodes, 2) == [] by {
      assert nodes[1..] == [bad, good] && nodes[1..][1..] == [good] && nodes[1..][1..][1..] == [];
      assert Children([good], 2) == [] && Children([bad, good], 2) == [];
    }
    var v1 := {} + {1};
    var v2 := v1 + {2};
    assert Dfs(nodes, 7, [], v2);
    assert [bad][..0] == [];
    assert Dfs(nodes, 7, [bad], v2);
    assert [bad, good][..1] == [bad] && [bad] + Children(nodes, 2) == [bad];
    assert Dfs(nodes, 7, [bad, good], v1);
    assert [root][..0] + Children(nodes, 1) == [bad, good];
  }
}
