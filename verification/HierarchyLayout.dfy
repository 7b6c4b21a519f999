/** The thing nodes, buckets and sinks that the traversal of a hierarchy emits, read off the tree: which
    node each stands for, which other one is its parent, and how its id continues that of the parent. */
module HierarchyLayout {
  import opened Wrappers
  import opened StringSplitting
  import opened BlobHierarchy

  /** A node of the tree and the place of its tree parent in the list of all nodes. */
  datatype Place = Place(node: HierarchyNode, parent: Option<nat>)

  /** All nodes in preorder, where the list begins at place `first` and the roots are below `parent`. */
  ghost function Layout(nodes: seq<HierarchyNode>, parent: Option<nat>, first: nat): seq<Place> {
    if nodes == [] then []
    else
      var below := Layout(nodes[0].substructure, Some(first), first + 1);
      [Place(nodes[0], parent)] + below + Layout(nodes[1..], parent, first + 1 + |below|)
  }

  /** A bucket ends where an object key begins: at a marked node, or above nothing but leaves. */
  ghost predicate BucketEnds(n: HierarchyNode) {
    n.definesObjectKey || (n.substructure != [] && forall i :: 0 <= i < |n.substructure| ==> n.substructure[i].substructure == [])
  }

  lemma {:induction false} DepthOfLeaves(nodes: seq<HierarchyNode>)
    ensures MaxDepth(nodes) == 0 <==> nodes == []
    ensures MaxDepth(nodes) <= 1 <==> forall i :: 0 <= i < |nodes| ==> nodes[i].substructure == []
  {
    if nodes != [] {
      DepthOfLeaves(nodes[1..]);
      DepthOfLeaves(nodes[0].substructure);
      assert forall i :: 1 <= i < |nodes| ==> nodes[i] == nodes[1..][i - 1];
    }
  }

  lemma EndsBucketExact(n: HierarchyNode)
    ensures EndsBucket(n) <==> BucketEnds(n)
  {
    DepthOfLeaves(n.substructure);
  }

  /** Every capital letter becomes the small one, 32 places further in the alphabet of characters, and
      everything else stays. */
  lemma LowerExact(s: string, i: nat)
    requires i < |s|
    ensures |Lower(s)| == |s|
    ensures if 'A' <= s[i] <= 'Z' then Lower(s)[i] as int == s[i] as int + 32 else Lower(s)[i] == s[i]
  {
    assert Lower(s)[i] == LowerChar(s[i]);
  }

  /** The node at place k is part of the bucket name: no bucket ends above it. */
  ghost predicate InBucket(ls: seq<Place>, first: nat, outer: Option<nat>, part: bool, k: nat)
    requires k < |ls|
    decreases k
  {
    if ls[k].parent == outer then part
    else
      ls[k].parent.Some? && first <= ls[k].parent.value < first + k &&
      var j := ls[k].parent.value - first;
      InBucket(ls, first, outer, part, j) && !BucketEnds(ls[j].node)
  }

  /** How the id of a node begins and what is its parent. */
  ghost predicate Linked(t: ThingNode, n: HierarchyNode, parent: Option<string>, part: bool) {
    && t.name == n.name && t.description == n.description && t.parentId == parent
    && t.id == (if parent.None? then "" else parent.value + (if part then "-" else "/")) + (if part then Lower(n.name) else n.name)
  }

  ghost predicate LinkedAt(ts: seq<ThingNode>, ls: seq<Place>, first: nat, outer: Option<nat>, parent: Option<string>, part: bool, k: nat)
    requires k < |ls| == |ts|
  {
    if ls[k].parent == outer then Linked(ts[k], ls[k].node, parent, part)
    else
      && ls[k].parent.Some? && first <= ls[k].parent.value < first + k
      && Linked(ts[k], ls[k].node, Some(ts[ls[k].parent.value - first].id), InBucket(ls, first, outer, part, k))
  }

  /** The thing nodes whose places are marked. */
  ghost function Marked(ts: seq<ThingNode>, marks: seq<bool>): seq<ThingNode>
    requires |ts| == |marks|
  {
    if ts == [] then [] else (if marks[0] then [ts[0]] else []) + Marked(ts[1..], marks[1..])
  }

  ghost predicate BucketMarks(ls: seq<Place>, first: nat, outer: Option<nat>, part: bool, marks: seq<bool>) {
    |marks| == |ls| && forall k :: 0 <= k < |ls| ==> (marks[k] <==> InBucket(ls, first, outer, part, k) && BucketEnds(ls[k].node))
  }

  ghost predicate LeafMarks(ls: seq<Place>, marks: seq<bool>) {
    |marks| == |ls| && forall k :: 0 <= k < |ls| ==> (marks[k] <==> ls[k].node.substructure == [])
  }

  /** A sink for each of the thing nodes. */
  ghost predicate SinksFor(sinks: seq<Sink>, ts: seq<ThingNode>) {
    |sinks| == |ts| && forall i :: 0 <= i < |ts| ==>
      sinks[i].id == ts[i].id + "_generic_sink" && sinks[i].thingNodeId == ts[i].id && sinks[i].name == ts[i].name + " - Next Object"
  }

  /** What is emitted for nodes below `parent`, laid out from place `first` on. */
  ghost predicate Laid(r: Structure, ls: seq<Place>, first: nat, outer: Option<nat>, parent: Option<string>, part: bool) {
    && r.Structure? && |r.thingNodes| == |ls|
    && (forall k :: 0 <= k < |ls| ==> LinkedAt(r.thingNodes, ls, first, outer, parent, part, k))
    && (forall marks :: BucketMarks(ls, first, outer, part, marks) ==> r.buckets == Ids(Marked(r.thingNodes, marks)))
    && (forall marks :: LeafMarks(ls, marks) ==> SinksFor(r.sinks, Marked(r.thingNodes, marks)))
  }

  // ----- the parts of a layout -----

  /** Parents are the outer one or come before. */
  ghost predicate ParentsBefore(ls: seq<Place>, parent: Option<nat>, first: nat) {
    forall k :: 0 <= k < |ls| ==> ParentBefore(ls[k], parent, first, k)
  }

  ghost predicate ParentBefore(p: Place, parent: Option<nat>, first: nat, k: nat) {
    p.parent == parent || (p.parent.Some? && first <= p.parent.value < first + k)
  }

  lemma {:induction false} LayoutParents(nodes: seq<HierarchyNode>, parent: Option<nat>, first: nat)
    ensures ParentsBefore(Layout(nodes, parent, first), parent, first)
    decreases nodes
  {
    if nodes != [] {
      var below := Layout(nodes[0].substructure, Some(first), first + 1);
      LayoutParents(nodes[0].substructure, Some(first), first + 1);
      var rest := Layout(nodes[1..], parent, first + 1 + |below|);
      LayoutParents(nodes[1..], parent, first + 1 + |below|);
      ParentsJoin(Layout(nodes, parent, first), nodes[0], below, rest, parent, first);
    }
  }

  lemma ParentsJoin(ls: seq<Place>, n: HierarchyNode, below: seq<Place>, rest: seq<Place>, parent: Option<nat>, first: nat)
    requires ls == [Place(n, parent)] + below + rest
    requires ParentsBefore(below, Some(first), first + 1) && ParentsBefore(rest, parent, first + 1 + |below|)
    ensures ParentsBefore(ls, parent, first)
  {
    forall k | 0 <= k < |ls| ensures ParentBefore(ls[k], parent, first, k) {
      if 1 <= k <= |below| {
        assert ls[k] == below[k - 1] && ParentBefore(below[k - 1], Some(first), first + 1, k - 1);
      } else if k > 0 {
        assert ls[k] == rest[k - 1 - |below|] && ParentBefore(rest[k - 1 - |below|], parent, first + 1 + |below|, k - 1 - |below|);
      }
    }
  }

  /** The root of a layout, what is laid out below it, and the rest. */
  ghost predicate Joined(ls: seq<Place>, n: HierarchyNode, below: seq<Place>, rest: seq<Place>, first: nat, outer: Option<nat>) {
    && ls == [Place(n, outer)] + below + rest && (outer.Some? ==> outer.value < first)
    && ParentsBefore(below, Some(first), first + 1) && ParentsBefore(rest, outer, first + 1 + |below|)
  }

  lemma LayoutJoined(nodes: seq<HierarchyNode>, parent: Option<nat>, first: nat)
    requires nodes != [] && (parent.Some? ==> parent.value < first)
    ensures var below := Layout(nodes[0].substructure, Some(first), first + 1);
      Joined(Layout(nodes, parent, first), nodes[0], below, Layout(nodes[1..], parent, first + 1 + |below|), first, parent)
  {
    hide ParentsBefore;
    var below := Layout(nodes[0].substructure, Some(first), first + 1);
    LayoutParents(nodes[0].substructure, Some(first), first + 1);
    LayoutParents(nodes[1..], parent, first + 1 + |below|);
  }

  lemma {:induction false} BelowInBucket(ls: seq<Place>, n: HierarchyNode, below: seq<Place>, rest: seq<Place>, first: nat, outer: Option<nat>, part: bool, k: nat)
    requires Joined(ls, n, below, rest, first, outer) && k < |below|
    ensures InBucket(ls, first, outer, part, k + 1) <==> InBucket(below, first + 1, Some(first), part && !BucketEnds(n), k)
    decreases k
  {
    assert ls[k + 1] == below[k] && ls[0] == Place(n, outer) && ParentBefore(below[k], Some(first), first + 1, k);
    if below[k].parent != Some(first) {
      var j := below[k].parent.value - (first + 1);
      assert ls[j + 1] == below[j];
      BelowInBucket(ls, n, below, rest, first, outer, part, j);
    }
  }

  lemma {:induction false} BesideInBucket(ls: seq<Place>, n: HierarchyNode, below: seq<Place>, rest: seq<Place>, first: nat, outer: Option<nat>, part: bool, k: nat)
    requires Joined(ls, n, below, rest, first, outer) && k < |rest|
    ensures InBucket(ls, first, outer, part, k + 1 + |below|) <==> InBucket(rest, first + 1 + |below|, outer, part, k)
    decreases k
  {
    assert ls[k + 1 + |below|] == rest[k] && ParentBefore(rest[k], outer, first + 1 + |below|, k);
    if rest[k].parent != outer {
      var j := rest[k].parent.value - (first + 1 + |below|);
      assert ls[j + 1 + |below|] == rest[j];
      BesideInBucket(ls, n, below, rest, first, outer, part, j);
    }
  }

  lemma {:induction false} MarkedAppend(a: seq<ThingNode>, b: seq<ThingNode>, p: seq<bool>, q: seq<bool>)
    requires |a| == |p| && |b| == |q|
    ensures Marked(a + b, p + q) == Marked(a, p) + Marked(b, q)
  {
    if a == [] {
      assert a + b == b && p + q == q;
    } else {
      MarkedAppend(a[1..], b, p[1..], q);
      assert (a + b)[1..] == a[1..] + b && (p + q)[1..] == p[1..] + q;
    }
  }

  // ----- the traversal lays out the tree -----

  /** Structures of the root, of what is below it, and of the rest make up the whole. */
  lemma JoinedLinks(r: Structure, own: Structure, under: Structure, others: Structure, ls: seq<Place>, n: HierarchyNode, below: seq<Place>, rest: seq<Place>, first: nat, outer: Option<nat>, parent: Option<string>, part: bool)
    requires Joined(ls, n, below, rest, first, outer)
    requires own.Structure? && |own.thingNodes| == 1 && Linked(own.thingNodes[0], n, parent, part)
    requires Laid(under, below, first + 1, Some(first), Some(own.thingNodes[0].id), part && !BucketEnds(n))
    requires Laid(others, rest, first + 1 + |below|, outer, parent, part)
    requires r == Append(Append(own, under), others)
    ensures |r.thingNodes| == |ls|
    ensures forall k :: 0 <= k < |ls| ==> LinkedAt(r.thingNodes, ls, first, outer, parent, part, k)
  {
    var ts := r.thingNodes;
    assert ts == own.thingNodes + under.thingNodes + others.thingNodes;
    hide Linked;
    forall k | 0 <= k < |ls| ensures LinkedAt(ts, ls, first, outer, parent, part, k) {
      if k == 0 {
        assert ls[0] == Place(n, outer) && ts[0] == own.thingNodes[0];
      } else if k <= |below| {
        LinkedBelow(ts, own.thingNodes[0], under.thingNodes, ls, n, below, rest, first, outer, parent, part, k - 1);
      } else {
        LinkedBeside(ts, others.thingNodes, ls, n, below, rest, first, outer, parent, part, k - 1 - |below|);
      }
    }
  }

  lemma LinkedBelow(ts: seq<ThingNode>, t: ThingNode, under: seq<ThingNode>, ls: seq<Place>, n: HierarchyNode, below: seq<Place>, rest: seq<Place>, first: nat, outer: Option<nat>, parent: Option<string>, part: bool, k: nat)
    requires Joined(ls, n, below, rest, first, outer) && k < |below| == |under| && |ts| == |ls|
    requires [t] + under <= ts && LinkedAt(under, below, first + 1, Some(first), Some(t.id), part && !BucketEnds(n), k)
    ensures LinkedAt(ts, ls, first, outer, parent, part, k + 1)
  {
    BelowInBucket(ls, n, below, rest, first, outer, part, k);
    assert ls[k + 1] == below[k] && ls[0] == Place(n, outer) && ParentBefore(below[k], Some(first), first + 1, k);
    assert ts[k + 1] == under[k] && ts[0] == t;
    if below[k].parent != Some(first) {
      var j := below[k].parent.value - (first + 1);
      assert ts[j + 1] == under[j];
    } else {
      assert InBucket(ls, first, outer, part, 0) == part;
    }
  }

  lemma LinkedBeside(ts: seq<ThingNode>, others: seq<ThingNode>, ls: seq<Place>, n: HierarchyNode, below: seq<Place>, rest: seq<Place>, first: nat, outer: Option<nat>, parent: Option<string>, part: bool, k: nat)
    requires Joined(ls, n, below, rest, first, outer) && k < |rest| == |others| && |ts| == |ls|
    requires ts[1 + |below|..] == others && LinkedAt(others, rest, first + 1 + |below|, outer, parent, part, k)
    ensures LinkedAt(ts, ls, first, outer, parent, part, k + 1 + |below|)
  {
    BesideInBucket(ls, n, below, rest, first, outer, part, k);
    assert ParentBefore(rest[k], outer, first + 1 + |below|, k);
    assert ls[k + 1 + |below|] == rest[k] && ts[k + 1 + |below|] == others[k];
    if rest[k].parent != outer {
      var j := rest[k].parent.value - (first + 1 + |below|);
      assert ts[j + 1 + |below|] == others[j];
    }
  }

  lemma BucketMarksSplit(ls: seq<Place>, n: HierarchyNode, below: seq<Place>, rest: seq<Place>, first: nat, outer: Option<nat>, part: bool, marks: seq<bool>)
    requires Joined(ls, n, below, rest, first, outer) && BucketMarks(ls, first, outer, part, marks)
    ensures |marks| == 1 + |below| + |rest| && (marks[0] <==> part && BucketEnds(n))
    ensures BucketMarks(below, first + 1, Some(first), part && !BucketEnds(n), marks[1..1 + |below|])
    ensures BucketMarks(rest, first + 1 + |below|, outer, part, marks[1 + |below|..])
  {
    hide BucketEnds;
    var q, m := marks[1..1 + |below|], marks[1 + |below|..];
    assert ls[0] == Place(n, outer) && InBucket(ls, first, outer, part, 0) == part;
    forall k | 0 <= k < |below| ensures q[k] <==> InBucket(below, first + 1, Some(first), part && !BucketEnds(n), k) && BucketEnds(below[k].node) {
      BelowInBucket(ls, n, below, rest, first, outer, part, k);
      assert ls[k + 1] == below[k] && marks[k + 1] == q[k];
    }
    forall k | 0 <= k < |rest| ensures m[k] <==> InBucket(rest, first + 1 + |below|, outer, part, k) && BucketEnds(rest[k].node) {
      BesideInBucket(ls, n, below, rest, first, outer, part, k);
      assert ls[k + 1 + |below|] == rest[k] && marks[k + 1 + |below|] == m[k];
    }
  }

  lemma LeafMarksSplit(ls: seq<Place>, n: HierarchyNode, below: seq<Place>, rest: seq<Place>, first: nat, outer: Option<nat>, marks: seq<bool>)
    requires Joined(ls, n, below, rest, first, outer) && LeafMarks(ls, marks)
    ensures |marks| == 1 + |below| + |rest| && (marks[0] <==> n.substructure == [])
    ensures LeafMarks(below, marks[1..1 + |below|]) && LeafMarks(rest, marks[1 + |below|..])
  {
    var q, m := marks[1..1 + |below|], marks[1 + |below|..];
    hide ParentsBefore;
    assert ls[0] == Place(n, outer);
    forall k | 0 <= k < |below| ensures q[k] <==> below[k].node.substructure == [] {
      assert ls[k + 1] == below[k] && marks[k + 1] == q[k];
    }
    forall k | 0 <= k < |rest| ensures m[k] <==> rest[k].node.substructure == [] {
      assert ls[k + 1 + |below|] == rest[k] && marks[k + 1 + |below|] == m[k];
    }
  }

  lemma JoinedBuckets(r: Structure, own: Structure, under: Structure, others: Structure, ls: seq<Place>, n: HierarchyNode, below: seq<Place>, rest: seq<Place>, first: nat, outer: Option<nat>, parent: Option<string>, part: bool, marks: seq<bool>)
    requires Joined(ls, n, below, rest, first, outer)
    requires own.Structure? && |own.thingNodes| == 1 && own.buckets == if part && BucketEnds(n) then [own.thingNodes[0].id] else []
    requires Laid(under, below, first + 1, Some(first), Some(own.thingNodes[0].id), part && !BucketEnds(n))
    requires Laid(others, rest, first + 1 + |below|, outer, parent, part)
    requires r == Append(Append(own, under), others) && |r.thingNodes| == |marks|
    requires BucketMarks(ls, first, outer, part, marks)
    ensures r.buckets == Ids(Marked(r.thingNodes, marks))
  {
    var p, q, m := marks[..1], marks[1..1 + |below|], marks[1 + |below|..];
    BucketMarksSplit(ls, n, below, rest, first, outer, part, marks);
    hide LinkedAt, SinksFor, LeafMarks, BucketMarks, InBucket, Joined, BucketEnds;
    assert marks == p + q + m;
    MarkedAppend(own.thingNodes, under.thingNodes, p, q);
    MarkedAppend(own.thingNodes + under.thingNodes, others.thingNodes, p + q, m);
    MarkedOne(own.thingNodes, p);
    IdsAppend(Marked(own.thingNodes, p), Marked(under.thingNodes, q));
    IdsAppend(Marked(own.thingNodes, p) + Marked(under.thingNodes, q), Marked(others.thingNodes, m));
  }

  lemma MarkedOne(ts: seq<ThingNode>, p: seq<bool>)
    requires |ts| == |p| == 1
    ensures Marked(ts, p) == (if p[0] then ts else []) && Ids(Marked(ts, p)) == if p[0] then [ts[0].id] else []
  {
    assert Marked(ts[1..], p[1..]) == [];
    assert ts == [ts[0]];
  }

  lemma SinksJoin(a: seq<Sink>, b: seq<Sink>, ts: seq<ThingNode>, us: seq<ThingNode>)
    requires SinksFor(a, ts) && SinksFor(b, us)
    ensures SinksFor(a + b, ts + us)
  {
  }

  lemma JoinedSinks(r: Structure, own: Structure, under: Structure, others: Structure, ls: seq<Place>, n: HierarchyNode, below: seq<Place>, rest: seq<Place>, first: nat, outer: Option<nat>, parent: Option<string>, part: bool, marks: seq<bool>)
    requires Joined(ls, n, below, rest, first, outer)
    requires own.Structure? && |own.thingNodes| == 1 && SinksFor(own.sinks, if n.substructure == [] then own.thingNodes else [])
    requires Laid(under, below, first + 1, Some(first), Some(own.thingNodes[0].id), part && !BucketEnds(n))
    requires Laid(others, rest, first + 1 + |below|, outer, parent, part)
    requires r == Append(Append(own, under), others) && |r.thingNodes| == |marks|
    requires LeafMarks(ls, marks)
    ensures SinksFor(r.sinks, Marked(r.thingNodes, marks))
  {
    var p, q, m := marks[..1], marks[1..1 + |below|], marks[1 + |below|..];
    LeafMarksSplit(ls, n, below, rest, first, outer, marks);
    hide LinkedAt, SinksFor, BucketMarks, LeafMarks, Joined;
    assert marks == p + q + m;
    MarkedAppend(own.thingNodes, under.thingNodes, p, q);
    MarkedAppend(own.thingNodes + under.thingNodes, others.thingNodes, p + q, m);
    MarkedOne(own.thingNodes, p);
    SinksJoin(own.sinks, under.sinks, Marked(own.thingNodes, p), Marked(under.thingNodes, q));
    SinksJoin(own.sinks + under.sinks, others.sinks, Marked(own.thingNodes, p) + Marked(under.thingNodes, q), Marked(others.thingNodes, m));
  }

  lemma OwnLaid(n: HierarchyNode, parent: Option<string>, part: bool)
    requires Own(n, parent, part).Structure?
    ensures var own := Own(n, parent, part);
      && |own.thingNodes| == 1 && Linked(own.thingNodes[0], n, parent, part) && own.thingNodes[0].id == Id(n, parent, part)
      && own.buckets == (if part && BucketEnds(n) then [own.thingNodes[0].id] else [])
      && SinksFor(own.sinks, if n.substructure == [] then own.thingNodes else [])
    ensures ChildPart(n, part) <==> part && !BucketEnds(n)
  {
    EndsBucketExact(n);
  }

  lemma {:induction false} TraversalLaid(nodes: seq<HierarchyNode>, parent: Option<string>, part: bool, outer: Option<nat>, first: nat)
    requires CreateAll(nodes, parent, part).Structure? && (outer.Some? ==> outer.value < first)
    ensures Laid(CreateAll(nodes, parent, part), Layout(nodes, outer, first), first, outer, parent, part)
    decreases nodes
  {
    hide Own, Laid, Joined, Linked, SinksFor, BucketEnds;
    var r, ls := CreateAll(nodes, parent, part), Layout(nodes, outer, first);
    if nodes == [] {
      NothingLaid(first, outer, parent, part);
    } else {
      var n := nodes[0];
      var own, under := Own(n, parent, part), CreateAll(n.substructure, Some(Id(n, parent, part)), ChildPart(n, part));
      var below := Layout(n.substructure, Some(first), first + 1);
      var others, rest := CreateAll(nodes[1..], parent, part), Layout(nodes[1..], outer, first + 1 + |below|);
      assert r == Append(Append(own, under), others);
      OwnLaid(n, parent, part);
      LayoutJoined(nodes, outer, first);
      TraversalLaid(n.substructure, Some(Id(n, parent, part)), ChildPart(n, part), Some(first), first + 1);
      TraversalLaid(nodes[1..], parent, part, outer, first + 1 + |below|);
      JoinedLaid(r, own, under, others, ls, n, below, rest, first, outer, parent, part);
    }
  }

  /** Together with its own entries, what is laid out below a node and beside it is laid out. */
  lemma JoinedLaid(r: Structure, own: Structure, under: Structure, others: Structure, ls: seq<Place>, n: HierarchyNode, below: seq<Place>, rest: seq<Place>, first: nat, outer: Option<nat>, parent: Option<string>, part: bool)
    requires Joined(ls, n, below, rest, first, outer)
    requires own.Structure? && |own.thingNodes| == 1 && Linked(own.thingNodes[0], n, parent, part)
    requires own.buckets == if part && BucketEnds(n) then [own.thingNodes[0].id] else []
    requires SinksFor(own.sinks, if n.substructure == [] then own.thingNodes else [])
    requires Laid(under, below, first + 1, Some(first), Some(own.thingNodes[0].id), part && !BucketEnds(n))
    requires Laid(others, rest, first + 1 + |below|, outer, parent, part)
    requires r == Append(Append(own, under), others)
    ensures Laid(r, ls, first, outer, parent, part)
  {
    JoinedLinks(r, own, under, others, ls, n, below, rest, first, outer, parent, part);
    forall marks | BucketMarks(ls, first, outer, part, marks) ensures r.buckets == Ids(Marked(r.thingNodes, marks)) {
      JoinedBuckets(r, own, under, others, ls, n, below, rest, first, outer, parent, part, marks);
    }
    forall marks | LeafMarks(ls, marks) ensures SinksFor(r.sinks, Marked(r.thingNodes, marks)) {
      JoinedSinks(r, own, under, others, ls, n, below, rest, first, outer, parent, part, marks);
    }
    hide LinkedAt, SinksFor, BucketMarks, LeafMarks, Joined;
  }

  lemma NothingLaid(first: nat, outer: Option<nat>, parent: Option<string>, part: bool)
    ensures Laid(Structure([], [], []), [], first, outer, parent, part)
  {
  }

  /** A whole hierarchy: roots have no parent, every other thing node names its tree parent and continues the
      id of that; names and descriptions are those of the tree in preorder; buckets are the nodes of the
      bucket part in which a bucket ends, and sinks belong to the leaves. */
  lemma HierarchyLaid(structure: seq<HierarchyNode>)
    requires CreateAll(structure, None, true).Structure?
    ensures Laid(CreateAll(structure, None, true), Layout(structure, None, 0), 0, None, None, true)
  {
    TraversalLaid(structure, None, true, None, 0);
  }

  // ----- which hierarchies are accepted -----

  /** Between 3 and 63 small letters, digits and dashes. */
  ghost predicate NamesBucket(s: string) {
    3 <= |s| <= 63 && forall c :: c in s ==> 'a' <= c <= 'z' || '0' <= c <= '9' || c == '-'
  }

  /** Some node on the path, not the last, ends the bucket part, the lower-cased names up to it make a
      bucket name, and no node behind it is marked. */
  ghost predicate PathFits(p: seq<HierarchyNode>, above: seq<string>) {
    exists i: nat :: EndsAt(p, above, i)
  }

  ghost predicate EndsAt(p: seq<HierarchyNode>, above: seq<string>, i: nat) {
    && i + 1 < |p| && BucketEnds(p[i]) && (forall j :: 0 <= j < i ==> !BucketEnds(p[j]))
    && NamesBucket(Join(above + Names(p[..i + 1], true), '-'))
    && forall j :: i < j < |p| ==> !p[j].definesObjectKey
  }

  lemma BucketNameExact(s: string)
    ensures IsBucketName(s) <==> NamesBucket(s)
  {
    if NamesBucket(s) {
      assert forall i :: 0 <= i < |s| ==> s[i] in s;
    }
  }

  lemma {:induction false} KeyPathOk(p: seq<HierarchyNode>, parent: Option<string>)
    requires p != [] && forall j :: 0 <= j < |p| ==> !p[j].definesObjectKey
    ensures PathOk(p, parent, false)
    decreases |p|
  {
    if |p| > 1 {
      KeyPathOk(p[1..], Some(Id(p[0], parent, false)));
    }
  }

  lemma EndsAtTail(p: seq<HierarchyNode>, above: seq<string>, i: nat)
    requires 0 < i && EndsAt(p, above, i)
    ensures EndsAt(p[1..], above + [Token(p[0], true)], i - 1) && !BucketEnds(p[0])
  {
    hide BucketEnds, Join, Names, Token, NamesBucket;
    LaterNames(p, above, i - 1);
  }

  lemma {:induction false} FittingPathOk(p: seq<HierarchyNode>, above: seq<string>, i: nat)
    requires EndsAt(p, above, i)
    ensures PathOk(p, BucketId(above), true)
    decreases |p|
  {
    var n := p[0];
    BucketIdStep(n, above);
    EndsBucketExact(n);
    hide BucketEnds, EndsBucket, Join, Names, Token;
    if i == 0 {
      OneName(p, above);
      BucketNameExact(Id(n, BucketId(above), true));
      KeyPathOk(p[1..], Some(Id(n, BucketId(above), true)));
    } else {
      EndsAtTail(p, above, i);
      FittingPathOk(p[1..], above + [Token(n, true)], i - 1);
      Unmarked(n);
    }
  }

  lemma OneName(p: seq<HierarchyNode>, above: seq<string>)
    requires p != []
    ensures above + Names(p[..1], true) == above + [Token(p[0], true)]
    ensures BucketId(above + [Token(p[0], true)]) == Some(Join(above + Names(p[..1], true), '-'))
  {
  }

  lemma Unmarked(n: HierarchyNode)
    requires !BucketEnds(n)
    ensures !n.definesObjectKey
  {
  }

  lemma FittingPath(p: seq<HierarchyNode>)
    requires p != []
    ensures PathOk(p, None, true) <==> PathFits(p, [])
  {
    forall n ensures EndsBucket(n) <==> BucketEnds(n) {
      EndsBucketExact(n);
    }
    if PathOk(p, None, true) {
      var i := BucketPhase(p, []);
      BucketNameExact(Join([] + Names(p[..i + 1], true), '-'));
      assert EndsAt(p, [], i);
    }
    if i: nat :| EndsAt(p, [], i) {
      FittingPathOk(p, [], i);
    }
  }

  /** The traversal succeeds exactly if on every path from a root to a leaf some node that is no leaf ends
      the bucket part: the first that is marked or above nothing but leaves; the names up to it make a bucket
      name, and no node behind it is marked. */
  lemma AcceptedExactly(structure: seq<HierarchyNode>)
    ensures CreateAll(structure, None, true).Structure? <==> forall p :: IsPath(structure, p) ==> PathFits(p, [])
  {
    hide PathOk, PathFits, CreateAll;
    CreateExactly(structure, None, true);
    forall p | IsPath(structure, p) ensures PathOk(p, None, true) <==> PathFits(p, []) {
      FittingPath(p);
    }
  }
}
