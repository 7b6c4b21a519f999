/** The hierarchy of the blob storage adapter: a tree of named nodes is turned into thing nodes with
    string ids, bucket names and sinks. */
module BlobHierarchy {
  import opened Wrappers
  import opened StringSplitting
  import opened Sequences

  /** No substructure and an empty substructure are treated alike. */
  datatype HierarchyNode = HierarchyNode(name: string, description: string, substructure: seq<HierarchyNode>, definesObjectKey: bool)

  datatype ThingNode = ThingNode(id: string, parentId: Option<string>, name: string, description: string)

  datatype Sink = Sink(id: string, thingNodeId: string, name: string)

  datatype Structure = Structure(thingNodes: seq<ThingNode>, buckets: seq<string>, sinks: seq<Sink>) | HierarchyError

  // ----- names -----

  predicate IsAlphanumeric(c: char) {
    'a' <= c <= 'z' || 'A' <= c <= 'Z' || '0' <= c <= '9'
  }

  predicate IsThingNodeName(s: string) {
    1 <= |s| <= 63 && forall i :: 0 <= i < |s| ==> IsAlphanumeric(s[i])
  }

  predicate IsBucketName(s: string) {
    3 <= |s| <= 63 && forall i :: 0 <= i < |s| ==> 'a' <= s[i] <= 'z' || '0' <= s[i] <= '9' || s[i] == '-'
  }

  function LowerChar(c: char): char {
    if 'A' <= c <= 'Z' then (c as int - 'A' as int + 'a' as int) as char else c
  }

  function Lower(s: string): (r: string)
    ensures |r| == |s| && forall i :: 0 <= i < |s| ==> r[i] == LowerChar(s[i])
  {
    if s == "" then "" else [LowerChar(s[0])] + Lower(s[1..])
  }

  /** All names of a tree are valid; the adapter's own types reject other trees. */
  predicate ValidNames(nodes: seq<HierarchyNode>) {
    nodes != [] ==>
      IsThingNodeName(nodes[0].name) && ValidNames(nodes[0].substructure) && ValidNames(nodes[1..])
  }

  // ----- the traversal -----

  function Depth(n: HierarchyNode): nat {
    1 + MaxDepth(n.substructure)
  }

  function MaxDepth(nodes: seq<HierarchyNode>): nat {
    if nodes == [] then 0
    else
      var rest := MaxDepth(nodes[1..]);
      if Depth(nodes[0]) < rest then rest else Depth(nodes[0])
  }

  function Token(n: HierarchyNode, partOfBucket: bool): string {
    if partOfBucket then Lower(n.name) else n.name
  }

  function Prefix(parent: Option<string>, partOfBucket: bool): string {
    if parent.None? then "" else parent.value + if partOfBucket then "-" else "/"
  }

  function Id(n: HierarchyNode, parent: Option<string>, partOfBucket: bool): string {
    Prefix(parent, partOfBucket) + Token(n, partOfBucket)
  }

  function ToThingNode(n: HierarchyNode, parent: Option<string>, partOfBucket: bool): ThingNode {
    ThingNode(Id(n, parent, partOfBucket), parent, n.name, n.description)
  }

  function SinkFromThingNode(t: ThingNode): Sink {
    Sink(t.id + "_generic_sink", t.id, t.name + " - Next Object")
  }

  /** While ids are still bucket names, this node ends the bucket name. */
  predicate EndsBucket(n: HierarchyNode) {
    n.definesObjectKey || Depth(n) == 2
  }

  predicate ChildPart(n: HierarchyNode, partOfBucket: bool) {
    partOfBucket && !EndsBucket(n)
  }

  function Append(a: Structure, b: Structure): Structure {
    if a.HierarchyError? || b.HierarchyError? then HierarchyError
    else Structure(a.thingNodes + b.thingNodes, a.buckets + b.buckets, a.sinks + b.sinks)
  }

  /** The node itself, without its substructure. */
  function Own(n: HierarchyNode, parent: Option<string>, partOfBucket: bool): Structure {
    var t := ToThingNode(n, parent, partOfBucket);
    if partOfBucket && n.substructure == [] then HierarchyError
    else if n.definesObjectKey && !partOfBucket then HierarchyError
    else if partOfBucket && EndsBucket(n) then
      if IsBucketName(t.id) then Structure([t], [t.id], []) else HierarchyError
    else Structure([t], [], if n.substructure == [] then [SinkFromThingNode(t)] else [])
  }

  function Create(n: HierarchyNode, parent: Option<string>, partOfBucket: bool): Structure {
    Append(Own(n, parent, partOfBucket),
           CreateAll(n.substructure, Some(Id(n, parent, partOfBucket)), ChildPart(n, partOfBucket)))
  }

  function CreateAll(nodes: seq<HierarchyNode>, parent: Option<string>, partOfBucket: bool): Structure {
    if nodes == [] then Structure([], [], [])
    else Append(Create(nodes[0], parent, partOfBucket), CreateAll(nodes[1..], parent, partOfBucket))
  }

  /** The three lists the traversal appends to. */
  class Accumulators {
    var thingNodes: seq<ThingNode>
    var buckets: seq<string>
    var sinks: seq<Sink>

    constructor ()
      ensures Contents() == Structure([], [], [])
    {
      thingNodes, buckets, sinks := [], [], [];
    }

    ghost function Contents(): Structure
      reads this
    {
      Structure(thingNodes, buckets, sinks)
    }

    method CreateStructure(n: HierarchyNode, parent: Option<string>, partOfBucket: bool) returns (ok: bool)
      modifies this
      ensures ok <==> Create(n, parent, partOfBucket).Structure?
      ensures ok ==> Contents() == Append(old(Contents()), Create(n, parent, partOfBucket))
      decreases n
    {
      ghost var before := Contents();
      if partOfBucket && n.substructure == [] {
        return false;
      }
      var thingNode := ToThingNode(n, parent, partOfBucket);
      thingNodes := thingNodes + [thingNode];
      var ends := n.definesObjectKey || (partOfBucket && Depth(n) == 2);
      if ends {
        if !partOfBucket || !IsBucketName(thingNode.id) {
          return false;
        }
        buckets := buckets + [thingNode.id];
      }
      ghost var own := Own(n, parent, partOfBucket);
      if n.substructure != [] {
        assert Contents() == Append(before, own);
        ok := CreateSubstructure(n.substructure, Some(thingNode.id), if ends then false else partOfBucket);
      } else {
        sinks := sinks + [SinkFromThingNode(thingNode)];
        assert Contents() == Append(before, own);
        ok := true;
      }
      AppendAssociative(before, own, CreateAll(n.substructure, Some(thingNode.id), ChildPart(n, partOfBucket)));
    }

    /** The loop over the substructure of a node. */
    method CreateSubstructure(nodes: seq<HierarchyNode>, parent: Option<string>, partOfBucket: bool) returns (ok: bool)
      modifies this
      ensures ok <==> CreateAll(nodes, parent, partOfBucket).Structure?
      ensures ok ==> Contents() == Append(old(Contents()), CreateAll(nodes, parent, partOfBucket))
      decreases nodes
    {
      hide Create, CreateAll;
      ghost var before := Contents();
      CreateNone(nodes, parent, partOfBucket);
      assert nodes[0..] == nodes;
      for i := 0 to |nodes|
        invariant Append(before, CreateAll(nodes, parent, partOfBucket)) ==
                  Append(Contents(), CreateAll(nodes[i..], parent, partOfBucket))
      {
        ghost var here := Contents();
        CreateAllStep(nodes, parent, partOfBucket, i);
        AppendAssociative(here, Create(nodes[i], parent, partOfBucket), CreateAll(nodes[i + 1..], parent, partOfBucket));
        ok := CreateStructure(nodes[i], parent, partOfBucket);
        if !ok {
          return;
        }
      }
      assert Append(Contents(), Structure([], [], [])) == Contents();
      return true;
    }
  }

  lemma CreateAllStep(nodes: seq<HierarchyNode>, parent: Option<string>, partOfBucket: bool, i: nat)
    requires i < |nodes|
    ensures CreateAll(nodes[i..], parent, partOfBucket) ==
      Append(Create(nodes[i], parent, partOfBucket), CreateAll(nodes[i + 1..], parent, partOfBucket))
  {
    assert nodes[i..][1..] == nodes[i + 1..];
  }

  lemma CreateNone(nodes: seq<HierarchyNode>, parent: Option<string>, partOfBucket: bool)
    ensures CreateAll(nodes[|nodes|..], parent, partOfBucket) == Structure([], [], [])
  {
  }

  lemma AppendAssociative(a: Structure, b: Structure, c: Structure)
    ensures Append(Append(a, b), c) == Append(a, Append(b, c))
  {
    if a.Structure? && b.Structure? && c.Structure? {
      assert (a.thingNodes + b.thingNodes) + c.thingNodes == a.thingNodes + (b.thingNodes + c.thingNodes);
      assert (a.buckets + b.buckets) + c.buckets == a.buckets + (b.buckets + c.buckets);
      assert (a.sinks + b.sinks) + c.sinks == a.sinks + (b.sinks + c.sinks);
    }
  }

  // ----- all ids of a tree -----

  ghost function NodeIds(n: HierarchyNode, parent: Option<string>, part: bool): seq<string> {
    [Id(n, parent, part)] + AllIds(n.substructure, Some(Id(n, parent, part)), ChildPart(n, part))
  }

  ghost function AllIds(nodes: seq<HierarchyNode>, parent: Option<string>, part: bool): seq<string> {
    if nodes == [] then [] else NodeIds(nodes[0], parent, part) + AllIds(nodes[1..], parent, part)
  }

  function Ids(ts: seq<ThingNode>): (ids: seq<string>)
    ensures |ids| == |ts| && forall i :: 0 <= i < |ts| ==> ids[i] == ts[i].id
  {
    if ts == [] then [] else [ts[0].id] + Ids(ts[1..])
  }

  lemma IdsAppend(a: seq<ThingNode>, b: seq<ThingNode>)
    ensures Ids(a + b) == Ids(a) + Ids(b)
  {
  }

  /** A successful traversal emits the ids of the tree, in preorder. */
  lemma {:induction false} CreatedIds(n: HierarchyNode, parent: Option<string>, part: bool)
    requires Create(n, parent, part).Structure?
    ensures Ids(Create(n, parent, part).thingNodes) == NodeIds(n, parent, part)
    decreases n
  {
    var id := Id(n, parent, part);
    AllCreatedIds(n.substructure, Some(id), ChildPart(n, part));
    IdsAppend(Own(n, parent, part).thingNodes, CreateAll(n.substructure, Some(id), ChildPart(n, part)).thingNodes);
  }

  lemma {:induction false} AllCreatedIds(nodes: seq<HierarchyNode>, parent: Option<string>, part: bool)
    requires CreateAll(nodes, parent, part).Structure?
    ensures Ids(CreateAll(nodes, parent, part).thingNodes) == AllIds(nodes, parent, part)
    decreases nodes
  {
    if nodes != [] {
      CreatedIds(nodes[0], parent, part);
      AllCreatedIds(nodes[1..], parent, part);
      IdsAppend(Create(nodes[0], parent, part).thingNodes, CreateAll(nodes[1..], parent, part).thingNodes);
    }
  }

  // ----- ids are distinct exactly if siblings are -----

  predicate IsSeparator(c: char) { c == '-' || c == '/' }

  /** `s` is `id` or continues it behind a separator. */
  ghost predicate ContinuesAs(s: string, id: string) {
    id <= s && (|s| > |id| ==> IsSeparator(s[|id|]))
  }

  lemma {:induction false} IdsContinue(n: HierarchyNode, parent: Option<string>, part: bool)
    ensures forall s :: s in NodeIds(n, parent, part) ==> ContinuesAs(s, Id(n, parent, part))
    ensures forall s :: s in AllIds(n.substructure, Some(Id(n, parent, part)), ChildPart(n, part)) ==> |s| > |Id(n, parent, part)|
    decreases n
  {
    var id := Id(n, parent, part);
    IdsContinueAll(n.substructure, id, ChildPart(n, part));
  }

  lemma {:induction false} IdsContinueAll(nodes: seq<HierarchyNode>, parent: string, part: bool)
    ensures forall s :: s in AllIds(nodes, Some(parent), part) ==> ContinuesAs(s, parent) && |s| > |parent|
    decreases nodes
  {
    if nodes != [] {
      var id := Id(nodes[0], Some(parent), part);
      IdsContinue(nodes[0], Some(parent), part);
      IdsContinueAll(nodes[1..], parent, part);
      forall s | s in NodeIds(nodes[0], Some(parent), part) ensures ContinuesAs(s, parent) && |s| > |parent| {
        assert ContinuesAs(s, id);
        assert id[|parent|] == s[|parent|];
      }
    }
  }

  lemma {:induction false} IdsContinueSome(nodes: seq<HierarchyNode>, parent: Option<string>, part: bool, s: string)
    requires s in AllIds(nodes, parent, part)
    ensures exists i :: 0 <= i < |nodes| && ContinuesAs(s, Id(nodes[i], parent, part))
    decreases nodes
  {
    if s in NodeIds(nodes[0], parent, part) {
      IdsContinue(nodes[0], parent, part);
      assert ContinuesAs(s, Id(nodes[0], parent, part));
    } else {
      IdsContinueSome(nodes[1..], parent, part, s);
      var i :| 0 <= i < |nodes[1..]| && ContinuesAs(s, Id(nodes[1..][i], parent, part));
      assert nodes[i + 1] == nodes[1..][i];
    }
  }

  ghost predicate IsToken(t: string) {
    forall i :: 0 <= i < |t| ==> !IsSeparator(t[i])
  }

  /** Tokens without separators are recovered from any continuation of the id they end. */
  lemma TokenDecoded(s: string, p: string, t: string, t': string)
    requires IsToken(t) && IsToken(t')
    requires ContinuesAs(s, p + t) && ContinuesAs(s, p + t')
    ensures t == t'
  {
    if |t| < |t'| {
      ShorterTokenStops(s, p, t, t');
    } else if |t'| < |t| {
      ShorterTokenStops(s, p, t', t);
    } else {
      assert t == (p + t)[|p|..] && t' == (p + t')[|p|..];
    }
  }

  lemma ShorterTokenStops(s: string, p: string, t: string, t': string)
    requires IsToken(t') && p + t' <= s && |t| < |t'|
    ensures !ContinuesAs(s, p + t)
  {
    assert s[|p| + |t|] == (p + t')[|p| + |t|] == t'[|t|];
  }

  /** Names of siblings differ, after lower-casing while they are part of a bucket name; on every
      level of the tree. */
  ghost predicate SiblingsDistinct(nodes: seq<HierarchyNode>, part: bool)
    decreases nodes
  {
    && (forall i, j :: 0 <= i < j < |nodes| ==> Token(nodes[i], part) != Token(nodes[j], part))
    && forall i :: 0 <= i < |nodes| ==> SiblingsDistinct(nodes[i].substructure, ChildPart(nodes[i], part))
  }

  lemma {:induction false} NamesAreTokens(nodes: seq<HierarchyNode>, part: bool)
    requires ValidNames(nodes)
    ensures forall i :: 0 <= i < |nodes| ==> IsToken(Token(nodes[i], part)) && ValidNames(nodes[i].substructure)
  {
    if nodes != [] {
      NamesAreTokens(nodes[1..], part);
      assert forall i :: 1 <= i < |nodes| ==> nodes[i] == nodes[1..][i - 1];
    }
  }

  lemma DistinctConcat<T>(a: seq<T>, b: seq<T>)
    ensures Distinct(a + b) <==> Distinct(a) && Distinct(b) && forall x :: x in a ==> x !in b
  {
    var c := a + b;
    assert forall i :: 0 <= i < |a| ==> c[i] == a[i];
    assert forall k :: |a| <= k < |c| ==> c[k] == b[k - |a|];
    if Distinct(c) {
      forall i, j | 0 <= i < j < |b| ensures b[i] != b[j] {
        assert c[|a| + i] != c[|a| + j];
      }
      forall i, j | 0 <= i < |a| && 0 <= j < |b| ensures a[i] != b[j] {
        assert c[i] != c[|a| + j];
      }
    }
    if Distinct(a) && Distinct(b) && forall x :: x in a ==> x !in b {
      forall i, j | 0 <= i < j < |c| ensures c[i] != c[j] {
        assert i < |a| ==> a[i] in a;
        assert j >= |a| ==> b[j - |a|] in b;
      }
    }
  }

  /** The global condition on ids is a local condition on the tree. */
  lemma {:induction false} IdsDistinctExactly(nodes: seq<HierarchyNode>, parent: Option<string>, part: bool)
    requires ValidNames(nodes)
    ensures Distinct(AllIds(nodes, parent, part)) <==> SiblingsDistinct(nodes, part)
    decreases nodes
  {
    if nodes != [] {
      var n, rest := nodes[0], nodes[1..];
      var id := Id(n, parent, part);
      NamesAreTokens(nodes, part);
      IdsDistinctExactly(rest, parent, part);
      IdsDistinctExactly(n.substructure, Some(id), ChildPart(n, part));
      IdsContinue(n, parent, part);
      DistinctConcat([id], AllIds(n.substructure, Some(id), ChildPart(n, part)));
      assert Distinct(NodeIds(n, parent, part)) <==> SiblingsDistinct(n.substructure, ChildPart(n, part));
      DistinctConcat(NodeIds(n, parent, part), AllIds(rest, parent, part));
      FirstAgainstRest(nodes, parent, part);
      SiblingsCons(nodes, part);
    }
  }

  lemma SiblingsCons(nodes: seq<HierarchyNode>, part: bool)
    requires nodes != []
    ensures SiblingsDistinct(nodes, part) <==>
      && SiblingsDistinct(nodes[1..], part)
      && SiblingsDistinct(nodes[0].substructure, ChildPart(nodes[0], part))
      && forall i :: 0 < i < |nodes| ==> Token(nodes[0], part) != Token(nodes[i], part)
  {
    var rest := nodes[1..];
    assert forall i :: 1 <= i < |nodes| ==> nodes[i] == rest[i - 1];
    assert forall i :: 0 <= i < |rest| ==> rest[i] == nodes[i + 1];
  }

  /** The ids below the first node clash with those below its siblings only by an equal token. */
  lemma FirstAgainstRest(nodes: seq<HierarchyNode>, parent: Option<string>, part: bool)
    requires nodes != [] && ValidNames(nodes)
    ensures (forall s :: s in NodeIds(nodes[0], parent, part) ==> s !in AllIds(nodes[1..], parent, part)) <==>
            (forall i :: 0 < i < |nodes| ==> Token(nodes[0], part) != Token(nodes[i], part))
  {
    if forall i :: 0 < i < |nodes| ==> Token(nodes[0], part) != Token(nodes[i], part) {
      OtherTokenNoClash(nodes, parent, part);
    }
    forall i | 0 < i < |nodes| ensures Id(nodes[i], parent, part) in AllIds(nodes[1..], parent, part) {
      assert nodes[i] == nodes[1..][i - 1];
      OwnIdListed(nodes[1..], parent, part, i - 1);
    }
  }

  lemma OtherTokenNoClash(nodes: seq<HierarchyNode>, parent: Option<string>, part: bool)
    requires nodes != [] && ValidNames(nodes) && forall i :: 0 < i < |nodes| ==> Token(nodes[0], part) != Token(nodes[i], part)
    ensures forall s :: s in NodeIds(nodes[0], parent, part) ==> s !in AllIds(nodes[1..], parent, part)
  {
    var n, rest := nodes[0], nodes[1..];
    NamesAreTokens(nodes, part);
    forall s | s in NodeIds(n, parent, part) ensures s !in AllIds(rest, parent, part) {
      if s in AllIds(rest, parent, part) {
        IdsContinue(n, parent, part);
        IdsContinueSome(rest, parent, part, s);
        var i :| 0 <= i < |rest| && ContinuesAs(s, Id(rest[i], parent, part));
        assert rest[i] == nodes[i + 1];
        TokenDecoded(s, Prefix(parent, part), Token(n, part), Token(nodes[i + 1], part));
      }
    }
  }

  lemma {:induction false} OwnIdListed(nodes: seq<HierarchyNode>, parent: Option<string>, part: bool, i: nat)
    requires i < |nodes|
    ensures Id(nodes[i], parent, part) in AllIds(nodes, parent, part)
  {
    if i > 0 {
      OwnIdListed(nodes[1..], parent, part, i - 1);
    }
  }

  // ----- buckets and sinks follow the thing nodes -----

  function SinkNodeIds(sinks: seq<Sink>): (ids: seq<string>)
    ensures |ids| == |sinks| && forall i :: 0 <= i < |sinks| ==> ids[i] == sinks[i].thingNodeId
  {
    if sinks == [] then [] else [sinks[0].thingNodeId] + SinkNodeIds(sinks[1..])
  }

  lemma SinkNodeIdsAppend(a: seq<Sink>, b: seq<Sink>)
    ensures SinkNodeIds(a + b) == SinkNodeIds(a) + SinkNodeIds(b)
  {
  }

  /** `part` picks from `all`: it is distinct if `all` is. */
  ghost predicate PicksFrom(part: seq<string>, all: seq<string>) {
    (forall s :: s in part ==> s in all) && (Distinct(all) ==> Distinct(part))
  }

  lemma PicksFromConcat(a: seq<string>, b: seq<string>, all: seq<string>, bll: seq<string>)
    requires PicksFrom(a, all) && PicksFrom(b, bll)
    ensures PicksFrom(a + b, all + bll)
  {
    DistinctConcat(all, bll);
    DistinctConcat(a, b);
  }

  /** Distinct thing node ids force distinct bucket names and distinct sinks. */
  lemma {:induction false} BucketsAndSinksPicked(nodes: seq<HierarchyNode>, parent: Option<string>, part: bool)
    requires CreateAll(nodes, parent, part).Structure?
    ensures PicksFrom(CreateAll(nodes, parent, part).buckets, AllIds(nodes, parent, part))
    ensures PicksFrom(SinkNodeIds(CreateAll(nodes, parent, part).sinks), AllIds(nodes, parent, part))
    decreases nodes
  {
    if nodes != [] {
      var n, rest := nodes[0], nodes[1..];
      var id := Id(n, parent, part);
      var own := Own(n, parent, part);
      var below := CreateAll(n.substructure, Some(id), ChildPart(n, part));
      var others := CreateAll(rest, parent, part);
      BucketsAndSinksPicked(n.substructure, Some(id), ChildPart(n, part));
      BucketsAndSinksPicked(rest, parent, part);
      var belowIds := AllIds(n.substructure, Some(id), ChildPart(n, part));
      PicksFromConcat(own.buckets, below.buckets, [id], belowIds);
      PicksFromConcat(own.buckets + below.buckets, others.buckets, NodeIds(n, parent, part), AllIds(rest, parent, part));
      SinkNodeIdsAppend(own.sinks, below.sinks);
      SinkNodeIdsAppend(own.sinks + below.sinks, others.sinks);
      PicksFromConcat(SinkNodeIds(own.sinks), SinkNodeIds(below.sinks), [id], belowIds);
      PicksFromConcat(SinkNodeIds(own.sinks + below.sinks), SinkNodeIds(others.sinks), NodeIds(n, parent, part), AllIds(rest, parent, part));
    }
  }

  // ----- creating the adapter structure -----

  function ToSet(s: seq<string>): set<string> {
    set x | x in s
  }

  /** `len(s) == len(set(s))` is distinctness. */
  lemma {:induction false} SameLengthIffDistinct(s: seq<string>)
    ensures |ToSet(s)| <= |s|
    ensures |s| == |ToSet(s)| <==> Distinct(s)
  {
    if s != [] {
      var n := |s| - 1;
      var init, x := s[..n], s[n];
      SameLengthIffDistinct(init);
      assert s == init + [x];
      assert ToSet(s) == ToSet(init) + {x};
      DistinctConcat(init, [x]);
      if x in init {
        assert ToSet(s) == ToSet(init);
      }
    }
  }

  method CreateAdapterStructure(structure: seq<HierarchyNode>) returns (r: Structure)
    requires ValidNames(structure)
    ensures r.Structure? ==> r == CreateAll(structure, None, true)
    ensures r.Structure? <==> CreateAll(structure, None, true).Structure? && SiblingsDistinct(structure, true)
    ensures r.Structure? ==> Distinct(Ids(r.thingNodes)) && Distinct(r.buckets) && Distinct(SinkNodeIds(r.sinks))
  {
    var acc := new Accumulators();
    var ok := acc.CreateSubstructure(structure, None, true);
    if !ok {
      return HierarchyError;
    }
    r := Structure(acc.thingNodes, acc.buckets, acc.sinks);
    assert r == CreateAll(structure, None, true);
    AllCreatedIds(structure, None, true);
    IdsDistinctExactly(structure, None, true);
    BucketsAndSinksPicked(structure, None, true);
    var ids := Ids(r.thingNodes);
    SameLengthIffDistinct(r.buckets);
    SameLengthIffDistinct(ids);
    if |r.buckets| != |ToSet(r.buckets)| {
      return HierarchyError;
    }
    if |ids| != |ToSet(ids)| {
      return HierarchyError;
    }
  }

  // ----- paths from a root to a leaf -----

  ghost predicate IsPath(nodes: seq<HierarchyNode>, p: seq<HierarchyNode>) {
    p != [] && p[0] in nodes && (forall i :: 0 <= i < |p| - 1 ==> p[i + 1] in p[i].substructure) && p[|p| - 1].substructure == []
  }

  function Size(nodes: seq<HierarchyNode>): nat {
    if nodes == [] then 0 else 1 + Size(nodes[0].substructure) + Size(nodes[1..])
  }

  function Leaves(nodes: seq<HierarchyNode>): nat {
    if nodes == [] then 0
    else (if nodes[0].substructure == [] then 1 else Leaves(nodes[0].substructure)) + Leaves(nodes[1..])
  }

  /** One thing node for every node of the tree, one sink for every leaf. */
  lemma {:induction false} OnePerNode(nodes: seq<HierarchyNode>, parent: Option<string>, part: bool)
    requires CreateAll(nodes, parent, part).Structure?
    ensures |CreateAll(nodes, parent, part).thingNodes| == Size(nodes)
    ensures |CreateAll(nodes, parent, part).sinks| == Leaves(nodes)
    decreases nodes
  {
    if nodes != [] {
      OnePerNode(nodes[0].substructure, Some(Id(nodes[0], parent, part)), ChildPart(nodes[0], part));
      OnePerNode(nodes[1..], parent, part);
    }
  }

  /** The id of the last node of a path. */
  ghost function LeafId(p: seq<HierarchyNode>, parent: Option<string>, part: bool): string
    requires p != []
  {
    var id := Id(p[0], parent, part);
    if |p| == 1 then id else LeafId(p[1..], Some(id), ChildPart(p[0], part))
  }

  /** Nothing on the path makes the traversal fail. */
  ghost predicate PathOk(p: seq<HierarchyNode>, parent: Option<string>, part: bool)
    requires p != []
  {
    var id := Id(p[0], parent, part);
    && (part ==> |p| > 1)
    && (p[0].definesObjectKey ==> part)
    && (part && EndsBucket(p[0]) ==> IsBucketName(id))
    && (|p| > 1 ==> PathOk(p[1..], Some(id), ChildPart(p[0], part)))
  }

  lemma {:induction false} LeafPathExists(n: HierarchyNode) returns (p: seq<HierarchyNode>)
    ensures IsPath([n], p) && p[0] == n
    decreases n
  {
    if n.substructure == [] {
      p := [n];
    } else {
      var q := LeafPathExists(n.substructure[0]);
      p := [n] + q;
    }
  }

  lemma PathTail(nodes: seq<HierarchyNode>, p: seq<HierarchyNode>)
    requires IsPath(nodes, p) && |p| > 1
    ensures IsPath(p[0].substructure, p[1..]) && p[0].substructure != []
  {
    assert p[0 + 1] in p[0].substructure;
  }

  /** The parts a list of nodes contributes. */
  lemma CreateParts(nodes: seq<HierarchyNode>, parent: Option<string>, part: bool)
    requires nodes != []
    ensures var n, all := nodes[0], CreateAll(nodes, parent, part);
      var own := Own(n, parent, part);
      var below := CreateAll(n.substructure, Some(Id(n, parent, part)), ChildPart(n, part));
      var others := CreateAll(nodes[1..], parent, part);
      && (all.Structure? <==> own.Structure? && below.Structure? && others.Structure?)
      && (all.Structure? ==> all.sinks == own.sinks + below.sinks + others.sinks && all.buckets == own.buckets + below.buckets + others.buckets)
  {
  }

  /** The traversal succeeds exactly when no root-to-leaf path makes it fail. */
  lemma CreateExactly(nodes: seq<HierarchyNode>, parent: Option<string>, part: bool)
    ensures CreateAll(nodes, parent, part).Structure? <==> forall p :: IsPath(nodes, p) ==> PathOk(p, parent, part)
  {
    if CreateAll(nodes, parent, part).Structure? {
      forall p | IsPath(nodes, p) ensures PathOk(p, parent, part) {
        CreatedPathOk(nodes, parent, part, p);
      }
    }
    if forall p :: IsPath(nodes, p) ==> PathOk(p, parent, part) {
      PathsCreate(nodes, parent, part);
    }
  }

  lemma {:induction false} CreatedPathOk(nodes: seq<HierarchyNode>, parent: Option<string>, part: bool, p: seq<HierarchyNode>)
    requires CreateAll(nodes, parent, part).Structure? && IsPath(nodes, p)
    ensures PathOk(p, parent, part)
    decreases nodes
  {
    var n := nodes[0];
    CreateParts(nodes, parent, part);
    if p[0] == n {
      if |p| > 1 {
        PathTail(nodes, p);
        CreatedPathOk(n.substructure, Some(Id(n, parent, part)), ChildPart(n, part), p[1..]);
      }
    } else {
      assert IsPath(nodes[1..], p);
      CreatedPathOk(nodes[1..], parent, part, p);
    }
  }

  lemma {:induction false} PathsCreate(nodes: seq<HierarchyNode>, parent: Option<string>, part: bool)
    requires forall p :: IsPath(nodes, p) ==> PathOk(p, parent, part)
    ensures CreateAll(nodes, parent, part).Structure?
    decreases nodes
  {
    if nodes != [] {
      var n, rest := nodes[0], nodes[1..];
      forall p | IsPath(rest, p) ensures PathOk(p, parent, part) {
        assert IsPath(nodes, p);
      }
      PathsCreate(rest, parent, part);
      forall p | IsPath(n.substructure, p) ensures PathOk(p, Some(Id(n, parent, part)), ChildPart(n, part)) {
        PathCons(nodes, p);
        assert PathOk([n] + p, parent, part);
        assert ([n] + p)[1..] == p;
      }
      PathsCreate(n.substructure, Some(Id(n, parent, part)), ChildPart(n, part));
      var q := LeafPathExists(n);
      assert IsPath(nodes, q) && PathOk(q, parent, part);
      assert |q| > 1 <==> n.substructure != [] by {
        assert |q| > 1 ==> q[0 + 1] in q[0].substructure;
      }
      CreateParts(nodes, parent, part);
    }
  }

  lemma PathCons(nodes: seq<HierarchyNode>, p: seq<HierarchyNode>)
    requires nodes != [] && IsPath(nodes[0].substructure, p)
    ensures IsPath(nodes, [nodes[0]] + p)
  {
  }

  /** The sinks stand for the ends of the root-to-leaf paths. */
  lemma {:induction false} SinksAreLeaves(nodes: seq<HierarchyNode>, parent: Option<string>, part: bool, p: seq<HierarchyNode>)
    requires CreateAll(nodes, parent, part).Structure? && IsPath(nodes, p)
    ensures LeafId(p, parent, part) in SinkNodeIds(CreateAll(nodes, parent, part).sinks)
    decreases nodes
  {
    var n, rest := nodes[0], nodes[1..];
    var id := Id(n, parent, part);
    var own, below := Own(n, parent, part), CreateAll(n.substructure, Some(id), ChildPart(n, part));
    SinkNodeIdsAppend(own.sinks, below.sinks);
    SinkNodeIdsAppend(own.sinks + below.sinks, CreateAll(rest, parent, part).sinks);
    if p[0] == n {
      if |p| > 1 {
        PathTail(nodes, p);
        SinksAreLeaves(n.substructure, Some(id), ChildPart(n, part), p[1..]);
      } else {
        assert SinkNodeIds([SinkFromThingNode(ToThingNode(n, parent, part))])[0] == id;
      }
    } else {
      assert IsPath(rest, p);
      SinksAreLeaves(rest, parent, part, p);
    }
  }

  /** A root-to-leaf path ends in the id. */
  ghost predicate IsLeafId(nodes: seq<HierarchyNode>, parent: Option<string>, part: bool, id: string) {
    exists p :: IsPath(nodes, p) && LeafId(p, parent, part) == id
  }

  /** And there are no other sinks. */
  lemma {:induction false} SinkComesFromLeaf(nodes: seq<HierarchyNode>, parent: Option<string>, part: bool, id: string)
    requires CreateAll(nodes, parent, part).Structure?
    requires id in SinkNodeIds(CreateAll(nodes, parent, part).sinks)
    ensures IsLeafId(nodes, parent, part, id)
    decreases nodes
  {
    SinkParts(nodes, parent, part, id);
    hide Own, CreateAll, SinkNodeIds, IsLeafId, IsPath, LeafId;
    var n, rest := nodes[0], nodes[1..];
    if id in SinkNodeIds(Own(n, parent, part).sinks) {
      OwnSink(nodes, parent, part, id);
    } else if id in SinkNodeIds(CreateAll(n.substructure, Some(Id(n, parent, part)), ChildPart(n, part)).sinks) {
      SinkComesFromLeaf(n.substructure, Some(Id(n, parent, part)), ChildPart(n, part), id);
      LeafBelow(nodes, parent, part, id);
    } else {
      SinkComesFromLeaf(rest, parent, part, id);
      LeafBeside(nodes, parent, part, id);
    }
  }

  lemma LeafBelow(nodes: seq<HierarchyNode>, parent: Option<string>, part: bool, id: string)
    requires nodes != [] && IsLeafId(nodes[0].substructure, Some(Id(nodes[0], parent, part)), ChildPart(nodes[0], part), id)
    ensures IsLeafId(nodes, parent, part, id)
  {
    var n := nodes[0];
    var p :| IsPath(n.substructure, p) && LeafId(p, Some(Id(n, parent, part)), ChildPart(n, part)) == id;
    PathCons(nodes, p);
    assert ([n] + p)[1..] == p;
  }

  lemma LeafBeside(nodes: seq<HierarchyNode>, parent: Option<string>, part: bool, id: string)
    requires nodes != [] && IsLeafId(nodes[1..], parent, part, id)
    ensures IsLeafId(nodes, parent, part, id)
  {
    var p :| IsPath(nodes[1..], p) && LeafId(p, parent, part) == id;
    assert IsPath(nodes, p);
  }

  lemma SinkParts(nodes: seq<HierarchyNode>, parent: Option<string>, part: bool, id: string)
    requires CreateAll(nodes, parent, part).Structure?
    requires id in SinkNodeIds(CreateAll(nodes, parent, part).sinks)
    ensures nodes != []
    ensures var n := nodes[0];
      var own, below := Own(n, parent, part), CreateAll(n.substructure, Some(Id(n, parent, part)), ChildPart(n, part));
      var others := CreateAll(nodes[1..], parent, part);
      && own.Structure? && below.Structure? && others.Structure?
      && (id in SinkNodeIds(own.sinks) || id in SinkNodeIds(below.sinks) || id in SinkNodeIds(others.sinks))
  {
    var n := nodes[0];
    CreateParts(nodes, parent, part);
    hide Own, CreateAll, Id, ChildPart, SinkNodeIds;
    var own, below := Own(n, parent, part), CreateAll(n.substructure, Some(Id(n, parent, part)), ChildPart(n, part));
    var others := CreateAll(nodes[1..], parent, part);
    SinkNodeIdsAppend(own.sinks, below.sinks);
    SinkNodeIdsAppend(own.sinks + below.sinks, others.sinks);
  }

  lemma OwnSink(nodes: seq<HierarchyNode>, parent: Option<string>, part: bool, id: string)
    requires nodes != [] && Own(nodes[0], parent, part).Structure?
    requires id in SinkNodeIds(Own(nodes[0], parent, part).sinks)
    ensures IsLeafId(nodes, parent, part, id)
  {
    assert IsPath(nodes, [nodes[0]]) && LeafId([nodes[0]], parent, part) == id;
  }

  // ----- the shape of ids -----

  function Names(p: seq<HierarchyNode>, part: bool): (ns: seq<string>)
    ensures |ns| == |p| && forall i :: 0 <= i < |p| ==> ns[i] == Token(p[i], part)
  {
    if p == [] then [] else [Token(p[0], part)] + Names(p[1..], part)
  }

  /** The node at `i` is the one on the path that a bucket is created for. */
  ghost predicate BucketAt(p: seq<HierarchyNode>, i: int) {
    0 <= i < |p| && EndsBucket(p[i]) && forall j :: 0 <= j < i ==> !EndsBucket(p[j])
  }

  /** A path id: the lower-cased names up to the bucket node joined by '-', a '/', and the names
      below joined by '/'. */
  ghost predicate PathShape(p: seq<HierarchyNode>, i: int, bucket: string, key: string) {
    && BucketAt(p, i) && i + 1 < |p| && IsBucketName(bucket)
    && bucket == Join(Names(p[..i + 1], true), '-')
    && key == Join(Names(p[i + 1..], false), '/')
    && forall j :: i < j < |p| ==> !p[j].definesObjectKey
  }

  /** The id of a node below `bucket` whose path down from the bucket is named `names`. */
  function KeyId(bucket: string, names: seq<string>): string {
    if names == [] then bucket else bucket + "/" + Join(names, '/')
  }

  function BucketId(names: seq<string>): Option<string> {
    if names == [] then None else Some(Join(names, '-'))
  }

  lemma KeyIdStep(n: HierarchyNode, bucket: string, above: seq<string>)
    ensures Id(n, Some(KeyId(bucket, above)), false) == KeyId(bucket, above + [n.name])
  {
    JoinAppend(above, n.name, '/');
    if above != [] {
      var j := Join(above, '/');
      hide Join;
      assert (bucket + "/" + j) + "/" + n.name == bucket + "/" + (j + "/" + n.name);
    }
  }

  lemma BucketIdStep(n: HierarchyNode, above: seq<string>)
    ensures Some(Id(n, BucketId(above), true)) == BucketId(above + [Token(n, true)])
  {
    JoinAppend(above, Token(n, true), '-');
    assert "" + Token(n, true) == Token(n, true);
  }

  lemma NamesStep(above: seq<string>, p: seq<HierarchyNode>, part: bool)
    requires p != []
    ensures (above + [Token(p[0], part)]) + Names(p[1..], part) == above + Names(p, part)
  {
  }

  lemma {:induction false} KeyPhase(p: seq<HierarchyNode>, bucket: string, above: seq<string>)
    requires p != [] && PathOk(p, Some(KeyId(bucket, above)), false)
    ensures LeafId(p, Some(KeyId(bucket, above)), false) == KeyId(bucket, above + Names(p, false))
    ensures forall j :: 0 <= j < |p| ==> !p[j].definesObjectKey
    decreases |p|
  {
    KeyIdStep(p[0], bucket, above);
    NamesStep(above, p, false);
    if |p| > 1 {
      KeyPhase(p[1..], bucket, above + [p[0].name]);
      assert forall j :: 0 < j < |p| ==> p[j] == p[1..][j - 1];
    }
  }

  /** What the path from `above` on looks like if its bucket node is at `i`. */
  ghost predicate PhaseShape(p: seq<HierarchyNode>, above: seq<string>, i: nat)
    requires p != []
  {
    && BucketAt(p, i) && i + 1 < |p| && IsBucketName(Join(above + Names(p[..i + 1], true), '-'))
    && LeafId(p, BucketId(above), true) == KeyId(Join(above + Names(p[..i + 1], true), '-'), Names(p[i + 1..], false))
    && forall j :: i < j < |p| ==> !p[j].definesObjectKey
  }

  lemma {:induction false} BucketPhase(p: seq<HierarchyNode>, above: seq<string>) returns (i: nat)
    requires p != [] && PathOk(p, BucketId(above), true)
    ensures PhaseShape(p, above, i)
    decreases |p|
  {
    if EndsBucket(p[0]) {
      i := 0;
      BucketEndsHere(p, above);
    } else {
      BucketIdStep(p[0], above);
      var k := BucketPhase(p[1..], above + [Token(p[0], true)]);
      BucketEndsLater(p, above, k);
      i := k + 1;
    }
  }

  lemma BucketEndsHere(p: seq<HierarchyNode>, above: seq<string>)
    requires p != [] && PathOk(p, BucketId(above), true) && EndsBucket(p[0])
    ensures PhaseShape(p, above, 0)
  {
    BucketIdStep(p[0], above);
    NamesStep(above, p[..1], true);
    var bucket, tail := Id(p[0], BucketId(above), true), p[1..];
    assert KeyId(bucket, []) == bucket;
    KeyPhase(tail, bucket, []);
    assert [] + Names(tail, false) == Names(tail, false);
    assert forall j :: 0 < j < |p| ==> p[j] == tail[j - 1];
  }

  lemma BucketEndsLater(p: seq<HierarchyNode>, above: seq<string>, k: nat)
    requires |p| > 1 && !EndsBucket(p[0])
    requires PhaseShape(p[1..], above + [Token(p[0], true)], k)
    ensures PhaseShape(p, above, k + 1)
  {
    var tail := p[1..];
    BucketIdStep(p[0], above);
    LaterNames(p, above, k);
    assert ChildPart(p[0], true);
    hide Join, Names, Id, KeyId, EndsBucket, BucketId, Token;
    assert forall j :: 0 < j < |p| ==> p[j] == tail[j - 1];
  }

  lemma LaterNames(p: seq<HierarchyNode>, above: seq<string>, k: nat)
    requires k + 1 < |p|
    ensures above + Names(p[..k + 2], true) == (above + [Token(p[0], true)]) + Names(p[1..][..k + 1], true)
    ensures p[k + 2..] == p[1..][k + 1..]
  {
    NamesStep(above, p[..k + 2], true);
    assert p[..k + 2][1..] == p[1..][..k + 1];
  }

  /** `get_structure_bucket_and_object_key_prefix_from_id` */
  function BucketAndPrefix(id: string): Option<(string, string)> {
    match SplitOnce(id, "/")
    case None => None
    case Some((bucket, prefix)) => if IsBucketName(bucket) then Some((bucket, prefix)) else None
  }

  lemma OwnBucketListed(n: HierarchyNode, above: seq<string>)
    requires Own(n, BucketId(above), true).Structure? && EndsBucket(n)
    ensures Join(above + [Token(n, true)], '-') in Own(n, BucketId(above), true).buckets
  {
    BucketIdStep(n, above);
  }

  /** Below a node that is no bucket, and on the path behind it, the bucket comes one step earlier. */
  lemma BucketBelow(nodes: seq<HierarchyNode>, above: seq<string>, p: seq<HierarchyNode>, i: nat)
    requires IsPath(nodes, p) && BucketAt(p, i) && i > 0
    ensures IsPath(p[0].substructure, p[1..]) && BucketAt(p[1..], i - 1)
    ensures ChildPart(p[0], true) && Some(Id(p[0], BucketId(above), true)) == BucketId(above + [Token(p[0], true)])
    ensures above + Names(p[..i + 1], true) == (above + [Token(p[0], true)]) + Names(p[1..][..i], true)
  {
    assert |p| > 1;
    PathTail(nodes, p);
    BucketIdStep(p[0], above);
    NamesStep(above, p[..i + 1], true);
    assert p[..i + 1][1..] == p[1..][..i];
    assert forall j :: 0 < j < |p| ==> p[j] == p[1..][j - 1];
  }

  lemma {:induction false} BucketListed(nodes: seq<HierarchyNode>, above: seq<string>, p: seq<HierarchyNode>, i: nat)
    requires CreateAll(nodes, BucketId(above), true).Structure? && IsPath(nodes, p) && BucketAt(p, i)
    ensures Join(above + Names(p[..i + 1], true), '-') in CreateAll(nodes, BucketId(above), true).buckets
    decreases nodes
  {
    CreateParts(nodes, BucketId(above), true);
    var n := nodes[0];
    if p[0] != n {
      assert IsPath(nodes[1..], p);
      BucketListed(nodes[1..], above, p, i);
    } else if i == 0 {
      OwnBucketListed(n, above);
      assert p[..1] == [n] && Names([n], true) == [Token(n, true)];
    } else {
      BucketBelow(nodes, above, p, i);
      BucketListed(n.substructure, above + [Token(n, true)], p[1..], i - 1);
    }
  }

  // ----- main results -----

  /** After a successful traversal every root-to-leaf path has exactly one bucket node, strictly above
      its leaf; the leaf has a sink, and splitting the sink's thing node id at its first '/' gives
      back the path's bucket, which was created, and the names below it. */
  lemma PathsEndInBuckets(structure: seq<HierarchyNode>, p: seq<HierarchyNode>) returns (i: nat, bucket: string, key: string)
    requires CreateAll(structure, None, true).Structure? && IsPath(structure, p)
    ensures PathShape(p, i, bucket, key) && forall j :: BucketAt(p, j) ==> j == i
    ensures bucket in CreateAll(structure, None, true).buckets
    ensures LeafId(p, None, true) in SinkNodeIds(CreateAll(structure, None, true).sinks)
    ensures BucketAndPrefix(LeafId(p, None, true)) == Some((bucket, key))
  {
    CreatedPathOk(structure, None, true, p);
    i := BucketPhase(p, []);
    assert [] + Names(p[..i + 1], true) == Names(p[..i + 1], true);
    bucket := Join(Names(p[..i + 1], true), '-');
    key := Join(Names(p[i + 1..], false), '/');
    BucketListed(structure, [], p, i);
    SinksAreLeaves(structure, None, true, p);
    BucketSplits(bucket, key);
    BucketAtUnique(p, i);
  }

  lemma BucketAtUnique(p: seq<HierarchyNode>, i: nat)
    requires BucketAt(p, i)
    ensures forall j :: BucketAt(p, j) ==> j == i
  {
  }

  lemma BucketSplits(bucket: string, key: string)
    requires IsBucketName(bucket)
    ensures BucketAndPrefix(bucket + "/" + key) == Some((bucket, key))
  {
    SplitAtChar(bucket, '/', key);
  }

  /** Seen from the sinks: each splits into a created bucket and a key prefix read off some path. */
  lemma SinkSplits(structure: seq<HierarchyNode>, id: string)
    requires CreateAll(structure, None, true).Structure?
    requires id in SinkNodeIds(CreateAll(structure, None, true).sinks)
    ensures BucketAndPrefix(id).Some?
    ensures exists p, i :: IsPath(structure, p) && PathShape(p, i, BucketAndPrefix(id).value.0, BucketAndPrefix(id).value.1)
    ensures BucketAndPrefix(id).value.0 in CreateAll(structure, None, true).buckets
  {
    SinkComesFromLeaf(structure, None, true, id);
    var p :| IsPath(structure, p) && LeafId(p, None, true) == id;
    var i, bucket, key := PathsEndInBuckets(structure, p);
  }
}
