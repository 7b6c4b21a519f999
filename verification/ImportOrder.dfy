/** Ordering revisions by nesting level: the import order file is written from the lowest level
    upwards, deletions run from the highest level downwards. */
module ImportOrder {
  import opened Nesting
  import opened Sequences

  datatype LevelDict = LevelDict(ids: map<nat, seq<Uuid>>) | Failed(error: LevelResult)

  /** `order` is the insertion order of the revision dictionary. */
  ghost predicate IterationOrder(order: seq<Uuid>, d: TrafoDict) {
    Distinct(order) && forall id :: id in order <==> id in d
  }

  /** `lv` is the nesting level of every revision of the set. */
  ghost predicate LevelMap(lv: map<Uuid, nat>, d: TrafoDict) {
    lv.Keys == d.Keys && forall id :: id in d ==> NestingLevel(id, d, 0, {}) == Level(lv[id])
  }

  /** Neither a cycle nor a missing revision anywhere. */
  ghost predicate Nestable(d: TrafoDict) {
    forall id :: id in d ==> NestingLevel(id, d, 0, {}).Level?
  }

  ghost function AtLevel(order: seq<Uuid>, lv: map<Uuid, nat>, level: nat): seq<Uuid> {
    Filter(order, HasLevel(lv, level))
  }

  ghost function HasLevel(lv: map<Uuid, nat>, level: nat): Uuid -> bool {
    (id: Uuid) => id in lv && lv[id] == level
  }

  /** Every level lists its revisions in iteration order; no level is empty. */
  ghost predicate IsLevelDict(m: map<nat, seq<Uuid>>, order: seq<Uuid>, lv: map<Uuid, nat>) {
    && (forall level :: level in m ==> m[level] == AtLevel(order, lv, level) && m[level] != [])
    && (forall id :: id in order && id in lv ==> lv[id] in m)
  }

  method StructureIdsByNestingLevel(order: seq<Uuid>, d: TrafoDict) returns (r: LevelDict, ghost lv: map<Uuid, nat>)
    requires IterationOrder(order, d)
    ensures r.LevelDict? <==> Nestable(d)
    ensures r.LevelDict? ==> LevelMap(lv, d) && IsLevelDict(r.ids, order, lv)
  {
    hide NestingLevel, IsLevelDict;
    var ids: map<nat, seq<Uuid>> := map[];
    lv := map[];
    EmptyLevelDict(order[..0]);
    for i := 0 to |order|
      invariant lv.Keys == set x | x in order[..i]
      invariant forall id :: id in lv ==> NestingLevel(id, d, 0, {}) == Level(lv[id])
      invariant IsLevelDict(ids, order[..i], lv)
    {
      var id := order[i];
      var level := ComputeNestingLevel(id, d, 0, {});
      if !level.Level? {
        return Failed(level), lv;
      }
      ghost var lvBefore, idsBefore := lv, ids;
      lv := lv[id := level.n];
      if level.n !in ids {
        ids := ids[level.n := []];
      }
      ids := ids[level.n := ids[level.n] + [id]];
      LevelDictStep(idsBefore, ids, order[..i], lvBefore, id, level.n);
      assert order[..i + 1] == order[..i] + [id];
    }
    assert order[..|order|] == order;
    assert forall id :: id in lv <==> id in order;
    assert forall id :: id in d.Keys <==> id in order;
    assert lv.Keys == d.Keys;
    return LevelDict(ids), lv;
  }

  lemma EmptyLevelDict(order: seq<Uuid>)
    ensures IsLevelDict(map[], order, map[])
  {
  }

  lemma LevelDictStep(m: map<nat, seq<Uuid>>, m': map<nat, seq<Uuid>>, order: seq<Uuid>, lv: map<Uuid, nat>, id: Uuid, level: nat)
    requires IsLevelDict(m, order, lv) && lv.Keys == set x | x in order
    requires id !in order
    requires m' == m[level := (if level in m then m[level] else []) + [id]]
    ensures IsLevelDict(m', order + [id], lv[id := level])
  {
    assert (order + [id])[..|order|] == order;
    forall l: nat
      ensures AtLevel(order, lv[id := level], l) == AtLevel(order, lv, l)
      ensures l !in m ==> AtLevel(order, lv, l) == []
    {
      AtLevelLocal(order, lv, lv[id := level], l);
      if l !in m {
        AtLevelEmpty(order, lv, l);
      }
    }
  }

  lemma AtLevelLocal(order: seq<Uuid>, lv: map<Uuid, nat>, lv': map<Uuid, nat>, level: nat)
    requires forall x :: x in order ==> x in lv && x in lv' && lv[x] == lv'[x]
    ensures AtLevel(order, lv, level) == AtLevel(order, lv', level)
  {
    forall x | x in order ensures HasLevel(lv, level)(x) == HasLevel(lv', level)(x) {
    }
    FilterSame(order, HasLevel(lv, level), HasLevel(lv', level));
  }

  lemma AtLevelEmpty(order: seq<Uuid>, lv: map<Uuid, nat>, level: nat)
    requires forall x :: x in order && x in lv ==> lv[x] != level
    ensures AtLevel(order, lv, level) == []
  {
    forall x | x in order ensures !HasLevel(lv, level)(x) {
    }
    FilterNone(order, HasLevel(lv, level));
  }

  lemma AtLevelElements(order: seq<Uuid>, lv: map<Uuid, nat>, level: nat)
    ensures forall x :: x in AtLevel(order, lv, level) <==> x in order && x in lv && lv[x] == level
    ensures Distinct(order) ==> Distinct(AtLevel(order, lv, level))
  {
    FilterElements(order, HasLevel(lv, level));
    if Distinct(order) {
      FilterDistinct(order, HasLevel(lv, level));
    }
  }

  // ----- sorted(level_dict) -----

  ghost predicate Ordered(levels: seq<nat>, ascending: bool) {
    forall i, j :: 0 <= i < j < |levels| ==> if ascending then levels[i] < levels[j] else levels[i] > levels[j]
  }

  ghost predicate First(s: set<nat>, ascending: bool, m: nat) {
    m in s && forall x :: x in s ==> if ascending then m <= x else x <= m
  }

  lemma {:induction false} FirstExists(s: set<nat>, ascending: bool)
    requires s != {}
    ensures exists m :: First(s, ascending, m)
  {
    var m :| m in s;
    var rest := s - {m};
    if rest == {} {
      assert s == {m} && First(s, ascending, m);
    } else {
      FirstExists(rest, ascending);
      var k :| First(rest, ascending, k);
      assert forall x :: x in s ==> x == m || x in rest;
      assert First(s, ascending, if (if ascending then k < m else m < k) then k else m);
    }
  }

  function Sorted(s: set<nat>, ascending: bool): (r: seq<nat>)
    ensures Ordered(r, ascending)
    ensures forall x :: x in r <==> x in s
  {
    if s == {} then []
    else
      FirstExists(s, ascending);
      assert exists m :: First(s, ascending, m);
      var m :| m in s && forall x :: x in s ==> if ascending then m <= x else x <= m;
      var rest := Sorted(s - {m}, ascending);
      assert forall i :: 0 <= i < |rest| ==> rest[i] in rest;
      assert Ordered([m] + rest, ascending);
      [m] + rest
  }

  // ----- walking the level dictionary -----

  function In(keep: set<Uuid>): Uuid -> bool {
    (id: Uuid) => id in keep
  }

  function Listing(levels: seq<nat>, m: map<nat, seq<Uuid>>, keep: set<Uuid>): seq<Uuid>
    requires forall l :: l in levels ==> l in m
  {
    if levels == [] then []
    else Listing(levels[..|levels| - 1], m, keep) + Filter(m[levels[|levels| - 1]], In(keep))
  }

  ghost predicate LevelsOrdered(s: seq<Uuid>, lv: map<Uuid, nat>, ascending: bool) {
    && (forall i :: 0 <= i < |s| ==> s[i] in lv)
    && forall i, j :: 0 <= i < j < |s| ==> if ascending then lv[s[i]] <= lv[s[j]] else lv[s[i]] >= lv[s[j]]
  }

  lemma {:induction false} ListingOrdered(levels: seq<nat>, m: map<nat, seq<Uuid>>, keep: set<Uuid>, order: seq<Uuid>, lv: map<Uuid, nat>, ascending: bool)
    requires Distinct(order) && IsLevelDict(m, order, lv)
    requires forall l :: l in levels ==> l in m
    requires Ordered(levels, ascending)
    ensures Distinct(Listing(levels, m, keep)) && LevelsOrdered(Listing(levels, m, keep), lv, ascending)
    ensures forall x :: x in Listing(levels, m, keep) <==> x in order && x in keep && x in lv && lv[x] in levels
  {
    if levels != [] {
      var n := |levels| - 1;
      var init, l := levels[..n], levels[n];
      assert levels == init + [l];
      ListingOrdered(init, m, keep, order, lv, ascending);
      AtLevelElements(order, lv, l);
      FilterElements(m[l], In(keep));
      if Distinct(m[l]) {
        FilterDistinct(m[l], In(keep));
      }
      AppendOrdered(Listing(init, m, keep), Filter(m[l], In(keep)), lv, ascending, init, l);
    }
  }

  lemma AppendOrdered(s: seq<Uuid>, t: seq<Uuid>, lv: map<Uuid, nat>, ascending: bool, init: seq<nat>, l: nat)
    requires Distinct(s) && LevelsOrdered(s, lv, ascending) && Distinct(t)
    requires forall x :: x in s ==> x in lv && lv[x] in init
    requires forall x :: x in t ==> x in lv && lv[x] == l
    requires Ordered(init + [l], ascending)
    ensures Distinct(s + t) && LevelsOrdered(s + t, lv, ascending)
  {
    forall x | x in s ensures if ascending then lv[x] < l else lv[x] > l {
      var k :| 0 <= k < |init| && init[k] == lv[x];
      assert (init + [l])[k] == lv[x] && (init + [l])[|init|] == l;
    }
    assert forall i :: 0 <= i < |s| ==> s[i] in s;
    assert forall i :: 0 <= i < |t| ==> t[i] in t;
  }

  /** `a` has an operator for `b`, correctly typed if `b` is a workflow. */
  ghost predicate DependsOn(d: TrafoDict, a: Uuid, b: Uuid) {
    a in d && b in d && d[a].Workflow? &&
    exists o :: o in d[a].operators && o.trafoId == b && (o.kind.WORKFLOW? || d[b].Component?)
  }

  lemma DependencyIsLower(d: TrafoDict, lv: map<Uuid, nat>, a: Uuid, b: Uuid)
    requires LevelMap(lv, d) && DependsOn(d, a, b)
    ensures lv[b] < lv[a]
  {
    LevelRecurrence(d, a);
    LevelRecurrence(d, b);
    if d[b].Workflow? {
      assert Edge(d, a, b);
    }
  }

  /** Only WORKFLOW operators are followed: one that is wrongly marked COMPONENT hides the
      dependency, and then both workflows end up on the same level. */
  lemma MistypedOperatorIsIgnored(d: TrafoDict)
    requires d == map[1 := Workflow([]), 2 := Workflow([Operator(7, "op", COMPONENT, 1)])]
    ensures NestingLevel(1, d, 0, {}) == Level(1) && NestingLevel(2, d, 0, {}) == Level(1)
  {
    var ops := d[2].operators;
    var seen := {} + {2};
    assert ops[1..] == [];
    assert OperatorLevels(ops, d, 1, 1, seen) == Level(1);
  }

  /** `a` has an operator for `b`, whatever type it states. */
  ghost predicate RefersTo(d: TrafoDict, a: Uuid, b: Uuid) {
    a in d && b in d && d[a].Workflow? && exists o :: o in d[a].operators && o.trafoId == b
  }

  /** Some chain of correctly typed references from `a` passes more workflows than any from `b`. */
  ghost predicate LongerChain(d: TrafoDict, a: Uuid, b: Uuid) {
    exists p :: ChainFrom(d, a, p) && forall q :: ChainFrom(d, b, q) ==> Workflows(d, q) < Workflows(d, p)
  }

  lemma LowerByChains(d: TrafoDict, lv: map<Uuid, nat>, a: Uuid, b: Uuid)
    requires LevelMap(lv, d) && a in d && b in d
    ensures lv[b] < lv[a] <==> LongerChain(d, a, b)
  {
    NestingLevelExact(a, d, 0);
    NestingLevelExact(b, d, 0);
    if lv[b] < lv[a] {
      var p :| ChainFrom(d, a, p) && Workflows(d, p) == lv[a];
    }
    if LongerChain(d, a, b) {
      var p :| ChainFrom(d, a, p) && forall q :: ChainFrom(d, b, q) ==> Workflows(d, q) < Workflows(d, p);
      var q :| ChainFrom(d, b, q) && Workflows(d, q) == lv[b];
    }
  }

  /** All references lead to lower levels exactly if every workflow that only wrongly typed operators of
      another refer to starts shorter chains of correctly typed references than that other does. */
  lemma ReferencesLowerExactly(d: TrafoDict, lv: map<Uuid, nat>)
    requires LevelMap(lv, d)
    ensures (forall a, b :: RefersTo(d, a, b) ==> lv[b] < lv[a]) <==>
      (forall a, b :: RefersTo(d, a, b) && !DependsOn(d, a, b) ==> LongerChain(d, a, b))
  {
    forall a, b | RefersTo(d, a, b) ensures lv[b] < lv[a] <==> DependsOn(d, a, b) || LongerChain(d, a, b) {
      LowerByChains(d, lv, a, b);
      if DependsOn(d, a, b) {
        DependencyIsLower(d, lv, a, b);
      }
    }
  }

  // ----- the import order file -----

  ghost predicate DependenciesFirst(s: seq<Uuid>, d: TrafoDict) {
    forall i, b :: 0 <= i < |s| && DependsOn(d, s[i], b) && b in s ==> b in s[..i]
  }

  lemma AscendingPutsDependenciesFirst(s: seq<Uuid>, d: TrafoDict, lv: map<Uuid, nat>)
    requires LevelMap(lv, d) && LevelsOrdered(s, lv, true)
    ensures DependenciesFirst(s, d)
  {
    forall i, b | 0 <= i < |s| && DependsOn(d, s[i], b) && b in s ensures b in s[..i] {
      DependencyIsLower(d, lv, s[i], b);
      var j :| 0 <= j < |s| && s[j] == b;
      assert j < i;
      assert s[..i][j] == b;
    }
  }

  lemma ListingStep(levels: seq<nat>, ids: map<nat, seq<Uuid>>, keep: set<Uuid>, i: nat)
    requires i < |levels| && forall k :: 0 <= k < |levels| ==> levels[k] in ids
    ensures Listing(levels[..i + 1], ids, keep) == Listing(levels[..i], ids, keep) + Filter(ids[levels[i]], In(keep))
  {
    assert levels[..i + 1][..i] == levels[..i];
  }

  lemma EveryLevelListed(levels: seq<nat>, ids: map<nat, seq<Uuid>>, order: seq<Uuid>, d: TrafoDict, lv: map<Uuid, nat>)
    requires IterationOrder(order, d) && LevelMap(lv, d) && IsLevelDict(ids, order, lv)
    requires forall l :: l in levels <==> l in ids
    ensures forall x :: x in order && x in lv && lv[x] in levels <==> x in d
  {
  }

  method ListLevel(ids: seq<Uuid>, paths: set<Uuid>) returns (lines: seq<Uuid>)
    ensures lines == Filter(ids, In(paths))
  {
    lines := [];
    for k := 0 to |ids|
      invariant lines == Filter(ids[..k], In(paths))
    {
      assert ids[..k + 1][..k] == ids[..k];
      if ids[k] in paths {
        lines := lines + [ids[k]];
      }
    }
    assert ids[..|ids|] == ids;
  }

  /** The listed ids, one path line each; `paths` are the ids for which a path is known. */
  method GenerateImportOrderFile(order: seq<Uuid>, d: TrafoDict, paths: set<Uuid>) returns (failed: bool, lines: seq<Uuid>)
    requires IterationOrder(order, d)
    ensures failed <==> !Nestable(d)
    ensures failed ==> lines == []
    ensures !failed ==> Distinct(lines) && DependenciesFirst(lines, d)
    ensures !failed ==> forall x :: x in lines <==> x in d && x in paths
  {
    hide NestingLevel, DependsOn, Nestable, LevelMap, IsLevelDict, Filter, Distinct, DependenciesFirst, LevelsOrdered, Ordered;
    lines := [];
    var r, lv := StructureIdsByNestingLevel(order, d);
    failed := r.Failed?;
    if failed {
      return;
    }
    var levels := Sorted(r.ids.Keys, true);
    for i := 0 to |levels|
      invariant lines == Listing(levels[..i], r.ids, paths)
    {
      ListingStep(levels, r.ids, paths, i);
      var written := ListLevel(r.ids[levels[i]], paths);
      lines := lines + written;
    }
    assert levels[..|levels|] == levels;
    ListingOrdered(levels, r.ids, paths, order, lv, true);
    EveryLevelListed(levels, r.ids, order, d, lv);
    AscendingPutsDependenciesFirst(lines, d, lv);
  }

  // ----- deletion -----

  /** When an id is deleted, every revision of the delete set that refers to it is gone. */
  ghost predicate ReferrersFirst(log: seq<Uuid>, d: TrafoDict, delete: set<Uuid>) {
    forall i, a :: 0 <= i < |log| && a in delete && DependsOn(d, a, log[i]) ==> a in log[..i]
  }

  lemma DescendingPutsReferrersFirst(log: seq<Uuid>, d: TrafoDict, lv: map<Uuid, nat>, delete: set<Uuid>)
    requires LevelMap(lv, d) && LevelsOrdered(log, lv, false)
    requires forall x :: x in log <==> x in d && x in delete
    ensures ReferrersFirst(log, d, delete)
  {
    forall i, a | 0 <= i < |log| && a in delete && DependsOn(d, a, log[i]) ensures a in log[..i] {
      DependencyIsLower(d, lv, a, log[i]);
      var j :| 0 <= j < |log| && log[j] == a;
      assert j < i;
      assert log[..i][j] == a;
    }
  }

  /** After any number of deletions no member of the delete set that is still there refers to a
      deleted revision, so stopping anywhere leaves no dangling reference inside the set. */
  lemma EveryPrefixIsSafe(log: seq<Uuid>, d: TrafoDict, delete: set<Uuid>, k: nat, a: Uuid, b: Uuid)
    requires ReferrersFirst(log, d, delete) && k <= |log|
    requires a in delete && a !in log[..k] && DependsOn(d, a, b)
    ensures b !in log[..k]
  {
    forall i | 0 <= i < k ensures log[i] != b {
      assert forall j :: 0 <= j < i ==> log[..i][j] == log[..k][j];
    }
  }

  class Database {
    var present: set<Uuid>
    ghost var deleted: seq<Uuid>  // in the order of the delete calls

    method Delete(id: Uuid)
      modifies this
      ensures present == old(present) - {id} && deleted == old(deleted) + [id]
    {
      present := present - {id};
      deleted := deleted + [id];
    }

    method DeleteLevel(ids: seq<Uuid>, deleteIds: seq<Uuid>)
      modifies this
      ensures deleted == old(deleted) + Filter(ids, In(set x | x in deleteIds))
      ensures forall x :: x in present <==> x in old(present) && x !in Filter(ids, In(set x | x in deleteIds))
    {
      ghost var delete := set x | x in deleteIds;
      for k := 0 to |ids|
        invariant deleted == old(deleted) + Filter(ids[..k], In(delete))
        invariant forall x :: x in present <==> x in old(present) && x !in Filter(ids[..k], In(delete))
      {
        assert ids[..k + 1][..k] == ids[..k];
        if ids[k] in deleteIds {
          Delete(ids[k]);
        }
      }
      assert ids[..|ids|] == ids;
    }

    /** `d` is the delete set together with all its dependencies, as read back from the database. */
    method DeleteTransformationRevisions(deleteIds: seq<Uuid>, order: seq<Uuid>, d: TrafoDict) returns (failed: bool)
      requires IterationOrder(order, d)
      requires deleted == []
      modifies this
      ensures failed <==> !Nestable(d)
      ensures failed ==> present == old(present) && deleted == []
      ensures !failed ==> ReferrersFirst(deleted, d, set x | x in deleteIds) && Distinct(deleted)
      ensures !failed ==> forall x :: x in present <==> x in old(present) && !(x in deleteIds && x in d)
    {
      hide NestingLevel, DependsOn, Nestable, LevelMap, IsLevelDict, Filter, Distinct, ReferrersFirst, LevelsOrdered, Ordered;
      var r, lv := StructureIdsByNestingLevel(order, d);
      failed := r.Failed?;
      if failed {
        return;
      }
      ghost var delete := set x | x in deleteIds;
      var levels := Sorted(r.ids.Keys, false);
      for i := 0 to |levels|
        invariant deleted == Listing(levels[..i], r.ids, delete)
        invariant forall x :: x in present <==> x in old(present) && x !in deleted
      {
        ListingStep(levels, r.ids, delete, i);
        DeleteLevel(r.ids[levels[i]], deleteIds);
      }
      assert levels[..|levels|] == levels;
      ListingOrdered(levels, r.ids, delete, order, lv, false);
      EveryLevelListed(levels, r.ids, order, d, lv);
      assert forall x :: x in deleted <==> x in delete && x in d;
      DescendingPutsReferrersFirst(deleted, d, lv, delete);
    }
  }
}
