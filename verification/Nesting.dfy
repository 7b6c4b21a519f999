/** The nesting graph of transformation revisions: which workflows contain which
    others, how deep the nesting is, and when it is cyclic or incomplete. */
module Nesting {
  import opened Sequences

  /** UUIDs are only compared and used as keys. */
  type Uuid = int

  datatype Kind = COMPONENT | WORKFLOW

  datatype Operator = Operator(id: Uuid, name: string, kind: Kind, trafoId: Uuid)

  /** A revision's type and content agree: components have code, workflows operators. */
  datatype Trafo = Component | Workflow(operators: seq<Operator>)

  type TrafoDict = map<Uuid, Trafo>

  datatype LevelResult = Level(n: nat) | CycleDetected | MissingReference

  // ----- the computation -----

  function Max(a: nat, b: nat): nat { if a < b then b else a }

  function NestingLevel(tid: Uuid, d: TrafoDict, level: nat, seen: set<Uuid>): LevelResult
    decreases d.Keys - seen, 0, 0
  {
    if tid in seen then CycleDetected
    else if tid !in d then MissingReference
    else match d[tid]
      case Component => Level(level)
      case Workflow(operators) =>
        assert d.Keys - (seen + {tid}) < d.Keys - seen by {
          assert tid in d.Keys - seen;
        }
        OperatorLevels(operators, d, level + 1, level + 1, seen + {tid})
  }

  /** The loop over a workflow's operators; `nextLevel` is its running maximum. */
  function OperatorLevels(ops: seq<Operator>, d: TrafoDict, level: nat, nextLevel: nat, seen: set<Uuid>): LevelResult
    decreases d.Keys - seen, 1, |ops|
  {
    if ops == [] then Level(nextLevel)
    else if ops[0].kind.COMPONENT? then OperatorLevels(ops[1..], d, level, nextLevel, seen)
    else if ops[0].trafoId !in d then MissingReference
    else match NestingLevel(ops[0].trafoId, d, level, seen)
      case Level(n) => OperatorLevels(ops[1..], d, level, Max(nextLevel, n), seen)
      case error => error
  }

  method ComputeNestingLevel(tid: Uuid, d: TrafoDict, level: nat, seen: set<Uuid>) returns (r: LevelResult)
    ensures r == NestingLevel(tid, d, level, seen)
    decreases d.Keys - seen
  {
    if tid in seen {
      return CycleDetected;
    }
    var visited := seen + {tid};
    if tid !in d {
      return MissingReference;
    }
    if d[tid].Component? {
      return Level(level);
    }
    assert tid in d.Keys - seen;
    var ops := d[tid].operators;
    var nextLevel: nat := level + 1;
    for i := 0 to |ops|
      invariant NestingLevel(tid, d, level, seen) == OperatorLevels(ops[i..], d, level + 1, nextLevel, visited)
    {
      assert ops[i..][1..] == ops[i + 1..];
      if ops[i].kind.WORKFLOW? {
        if ops[i].trafoId !in d {
          return MissingReference;
        }
        var nested := ComputeNestingLevel(ops[i].trafoId, d, level + 1, visited);
        if !nested.Level? {
          return nested;
        }
        nextLevel := Max(nextLevel, nested.n);
      }
    }
    return Level(nextLevel);
  }

  // ----- the reference: chains of workflow operators -----

  /** Workflow `a` has an operator of type WORKFLOW that points to `b`. */
  ghost predicate Edge(d: TrafoDict, a: Uuid, b: Uuid) {
    a in d && d[a].Workflow? &&
    exists o :: o in d[a].operators && o.kind.WORKFLOW? && o.trafoId == b
  }

  ghost predicate ChainFrom(d: TrafoDict, a: Uuid, p: seq<Uuid>) {
    p != [] && p[0] == a && forall i :: 0 <= i < |p| - 1 ==> Edge(d, p[i], p[i + 1])
  }

  ghost predicate Avoids(p: seq<Uuid>, seen: set<Uuid>) {
    forall i :: 0 <= i < |p| ==> p[i] !in seen
  }

  ghost function Last(p: seq<Uuid>): Uuid
    requires p != []
  {
    p[|p| - 1]
  }

  /** How many workflows a chain passes; only its last element can be something else. */
  ghost function Workflows(d: TrafoDict, p: seq<Uuid>): nat
    requires p != []
  {
    |p| - 1 + if Last(p) in d && d[Last(p)].Workflow? then 1 else 0
  }

  ghost predicate ReachesCycle(d: TrafoDict, tid: Uuid) {
    exists p :: ChainFrom(d, tid, p) && !Distinct(p)
  }

  ghost predicate ReachesMissing(d: TrafoDict, tid: Uuid) {
    exists p :: ChainFrom(d, tid, p) && Last(p) !in d
  }

  /** Every workflow operator points into the set. */
  ghost predicate Closed(d: TrafoDict) {
    forall a, b :: Edge(d, a, b) ==> b in d
  }

  ghost predicate LongestFrom(d: TrafoDict, tid: Uuid, n: nat) {
    && (forall p :: ChainFrom(d, tid, p) ==> Workflows(d, p) <= n)
    && (exists p :: ChainFrom(d, tid, p) && Workflows(d, p) == n)
  }

  // ----- what the result means -----

  /** The result of a call explained by the chains that start at `tid`. */
  ghost predicate Explains(r: LevelResult, tid: Uuid, d: TrafoDict, level: nat, seen: set<Uuid>) {
    match r
    case Level(n) =>
      && n >= level
      && (forall p :: ChainFrom(d, tid, p) ==> Distinct(p) && Avoids(p, seen) && Last(p) in d)
      && LongestFrom(d, tid, n - level)
    case CycleDetected =>
      exists p :: ChainFrom(d, tid, p) && !(Distinct(p) && Avoids(p, seen))
    case MissingReference =>
      exists p :: ChainFrom(d, tid, p) && Last(p) !in d
  }

  lemma {:induction false} NestingLevelExplained(tid: Uuid, d: TrafoDict, level: nat, seen: set<Uuid>)
    ensures Explains(NestingLevel(tid, d, level, seen), tid, d, level, seen)
    decreases d.Keys - seen, 0, 0
  {
    assert ChainFrom(d, tid, [tid]);
    if tid in seen {
      assert [tid][0] in seen;
    } else if tid !in d {
      assert Last([tid]) !in d;
    } else if d[tid].Component? {
      forall p | ChainFrom(d, tid, p)
        ensures Distinct(p) && Avoids(p, seen) && Last(p) in d && Workflows(d, p) == 0
      {
        assert |p| > 1 ==> Edge(d, p[0], p[1]);
      }
      assert Workflows(d, [tid]) == 0;
    } else {
      assert tid in d.Keys - seen;
      OperatorLevelsExplained(tid, d[tid].operators, d, level, level + 1, seen);
      var r := NestingLevel(tid, d, level, seen);
      if r.Level? {
        forall p | ChainFrom(d, tid, p)
          ensures Distinct(p) && Avoids(p, seen) && Last(p) in d && Workflows(d, p) <= r.n - level
        {
          if |p| > 1 {
            ChainTail(d, tid, p);
            var o :| o in d[tid].operators && o.kind.WORKFLOW? && o.trafoId == p[1];
            assert Distinct(p) && Avoids(p, seen) by {
              assert Avoids(p[1..], seen + {tid});
              assert forall i :: 0 < i < |p| ==> p[i] == p[1..][i - 1];
            }
          }
        }
        assert Workflows(d, [tid]) == 1;
      }
    }
  }

  lemma ChainTail(d: TrafoDict, tid: Uuid, p: seq<Uuid>)
    requires ChainFrom(d, tid, p) && |p| > 1
    ensures ChainFrom(d, p[1], p[1..]) && Edge(d, tid, p[1])
    ensures Last(p[1..]) == Last(p) && Workflows(d, p) == 1 + Workflows(d, p[1..])
  {
    assert Edge(d, p[0], p[1]);
    forall i | 0 <= i < |p[1..]| - 1 ensures Edge(d, p[1..][i], p[1..][i + 1]) {
      assert Edge(d, p[i + 1], p[i + 2]);
    }
  }

  lemma ChainCons(d: TrafoDict, tid: Uuid, p: seq<Uuid>)
    requires p != [] && ChainFrom(d, p[0], p) && Edge(d, tid, p[0])
    ensures ChainFrom(d, tid, [tid] + p)
    ensures Last([tid] + p) == Last(p) && Workflows(d, [tid] + p) == 1 + Workflows(d, p)
  {
    var q := [tid] + p;
    forall i | 0 <= i < |q| - 1 ensures Edge(d, q[i], q[i + 1]) {
      if i > 0 {
        assert Edge(d, p[i - 1], p[i]);
      }
    }
  }

  lemma OperatorEdge(d: TrafoDict, tid: Uuid, o: Operator)
    requires tid in d && d[tid].Workflow? && o in d[tid].operators && o.kind.WORKFLOW?
    ensures Edge(d, tid, o.trafoId)
  {
  }

  /** No chain repeats or meets `seen`, all end in the set, and none is longer than from `level` to `n`. */
  ghost predicate ChainsBounded(d: TrafoDict, a: Uuid, level: nat, n: nat, seen: set<Uuid>) {
    forall p :: ChainFrom(d, a, p) ==> Distinct(p) && Avoids(p, seen) && Last(p) in d && level + Workflows(d, p) <= n
  }

  lemma BoundRaised(d: TrafoDict, a: Uuid, level: nat, n: nat, seen: set<Uuid>)
    requires Explains(Level(n), a, d, level, seen)
    ensures forall m: nat :: n <= m ==> ChainsBounded(d, a, level, m, seen)
  {
  }

  /** The same for the loop: `ops` are the operators still to be visited. */
  lemma {:induction false} OperatorLevelsExplained(tid: Uuid, ops: seq<Operator>, d: TrafoDict, level: nat, nextLevel: nat, seen: set<Uuid>)
    requires tid in d && tid !in seen && d[tid].Workflow?
    requires nextLevel >= level + 1
    requires forall o :: o in ops ==> o in d[tid].operators
    ensures match OperatorLevels(ops, d, level + 1, nextLevel, seen + {tid})
      case Level(n) =>
        && n >= nextLevel
        && (forall o :: o in ops && o.kind.WORKFLOW? ==> ChainsBounded(d, o.trafoId, level + 1, n, seen + {tid}))
        && (n == nextLevel || exists p :: ChainFrom(d, tid, p) && level + Workflows(d, p) == n)
      case CycleDetected =>
        exists p :: ChainFrom(d, tid, p) && !(Distinct(p) && Avoids(p, seen))
      case MissingReference =>
        exists p :: ChainFrom(d, tid, p) && Last(p) !in d
    decreases d.Keys - (seen + {tid}), 1, |ops|
  {
    hide ChainsBounded, Avoids, Distinct, Edge, NestingLevel;
    if ops != [] {
      var o, rest := ops[0], ops[1..];
      assert forall o' :: o' in ops <==> o' == o || o' in rest;
      if o.kind.COMPONENT? {
        OperatorLevelsExplained(tid, rest, d, level, nextLevel, seen);
      } else {
        var nested := NestingLevel(o.trafoId, d, level + 1, seen + {tid});
        NestingLevelExplained(o.trafoId, d, level + 1, seen + {tid});
        OperatorEdge(d, tid, o);
        if o.trafoId !in d {
          assert ChainFrom(d, o.trafoId, [o.trafoId]);
          ChainCons(d, tid, [o.trafoId]);
        } else if nested.Level? {
          var p :| ChainFrom(d, o.trafoId, p) && Workflows(d, p) == nested.n - (level + 1);
          ChainCons(d, tid, p);
          OperatorLevelsExplained(tid, rest, d, level, Max(nextLevel, nested.n), seen);
          BoundRaised(d, o.trafoId, level + 1, nested.n, seen + {tid});
        } else if nested.CycleDetected? {
          var p :| ChainFrom(d, o.trafoId, p) && !(Distinct(p) && Avoids(p, seen + {tid}));
          ChainCons(d, tid, p);
          BadTail(tid, p, seen);
        } else {
          var p :| ChainFrom(d, o.trafoId, p) && Last(p) !in d;
          ChainCons(d, tid, p);
        }
      }
    }
  }

  lemma BadTail(tid: Uuid, p: seq<Uuid>, seen: set<Uuid>)
    requires !(Distinct(p) && Avoids(p, seen + {tid}))
    ensures !(Distinct([tid] + p) && Avoids([tid] + p, seen))
  {
    var q := [tid] + p;
    assert forall i :: 0 <= i < |p| ==> q[i + 1] == p[i];
    if !Avoids(p, seen + {tid}) {
      var i :| 0 <= i < |p| && p[i] in seen + {tid};
      assert q[i + 1] == p[i] && q[0] == tid;
    } else {
      var i, j :| 0 <= i < j < |p| && p[i] == p[j];
      assert q[i + 1] == q[j + 1];
    }
  }

  // ----- main results -----

  /** A level is returned exactly when neither a cycle nor a missing revision can be reached, and
      then it is the start level plus the longest chain of nested workflows. Sharing a
      sub-workflow is no cycle: the cycle error needs a chain that really repeats. */
  lemma NestingLevelExact(tid: Uuid, d: TrafoDict, level: nat)
    ensures var r := NestingLevel(tid, d, level, {});
      && (r.Level? <==> !ReachesCycle(d, tid) && !ReachesMissing(d, tid))
      && (r.CycleDetected? ==> ReachesCycle(d, tid))
      && (r.MissingReference? ==> ReachesMissing(d, tid))
      && (r.Level? ==> r.n >= level && LongestFrom(d, tid, r.n - level))
  {
    NestingLevelExplained(tid, d, level, {});
  }

  /** On a reference-closed set the cycle error is raised exactly on reachable cycles. */
  lemma CycleErrorExact(tid: Uuid, d: TrafoDict, level: nat)
    requires Closed(d) && tid in d
    ensures NestingLevel(tid, d, level, {}).CycleDetected? <==> ReachesCycle(d, tid)
    ensures !NestingLevel(tid, d, level, {}).MissingReference?
  {
    NestingLevelExact(tid, d, level);
    forall p | ChainFrom(d, tid, p) ensures Last(p) in d {
      ClosedChain(d, tid, p);
    }
  }

  lemma ClosedChain(d: TrafoDict, tid: Uuid, p: seq<Uuid>)
    requires Closed(d) && tid in d && ChainFrom(d, tid, p)
    ensures Last(p) in d
  {
    if |p| > 1 {
      var k := |p| - 2;
      assert Edge(d, p[k], p[k + 1]);
    }
  }

  lemma LongestUnique(d: TrafoDict, tid: Uuid, m: nat, n: nat)
    requires LongestFrom(d, tid, m) && LongestFrom(d, tid, n)
    ensures m == n
  {
  }

  lemma TailIsBetter(d: TrafoDict, a: Uuid, p: seq<Uuid>, n: nat)
    requires p != [] && ChainFrom(d, p[0], p) && Edge(d, a, p[0])
    requires forall q :: ChainFrom(d, a, q) ==> Distinct(q) && Last(q) in d && Workflows(d, q) <= n
    ensures Distinct(p) && Last(p) in d && Workflows(d, p) < n
  {
    var q := [a] + p;
    ChainCons(d, a, p);
    hide Workflows, ChainFrom;
    assert Distinct(q) && q[1..] == p;
    assert forall i :: 0 <= i < |p| ==> q[i + 1] == p[i];
  }

  /** An edge leads to a strictly smaller level, whatever the start level. */
  lemma EdgeDescends(d: TrafoDict, a: Uuid, b: Uuid, level: nat)
    requires Edge(d, a, b) && NestingLevel(a, d, level, {}).Level?
    ensures NestingLevel(b, d, level, {}).Level?
    ensures NestingLevel(b, d, level, {}).n < NestingLevel(a, d, level, {}).n
  {
    NestingLevelExplained(a, d, level, {});
    NestingLevelExplained(b, d, level, {});
    var n := NestingLevel(a, d, level, {}).n;
    forall p | ChainFrom(d, b, p)
      ensures Distinct(p) && Last(p) in d && Workflows(d, p) < n - level
    {
      TailIsBetter(d, a, p, n - level);
    }
  }

  /** The documented recurrence: a workflow is one level above the highest of the workflows it
      contains, or on level 1 if it contains none; components are on level 0. */
  lemma LevelRecurrence(d: TrafoDict, tid: Uuid)
    requires NestingLevel(tid, d, 0, {}).Level?
    ensures tid in d
    ensures var n := NestingLevel(tid, d, 0, {}).n;
      && (d[tid].Component? <==> n == 0)
      && (forall b :: Edge(d, tid, b) ==> NestingLevel(b, d, 0, {}).Level? && NestingLevel(b, d, 0, {}).n < n)
      && (n > 1 ==> exists b :: Edge(d, tid, b) && NestingLevel(b, d, 0, {}) == Level(n - 1))
  {
    NestingLevelExact(tid, d, 0);
    var n := NestingLevel(tid, d, 0, {}).n;
    assert ChainFrom(d, tid, [tid]);
    assert d[tid].Workflow? ==> Workflows(d, [tid]) == 1;
    forall b | Edge(d, tid, b)
      ensures NestingLevel(b, d, 0, {}).Level? && NestingLevel(b, d, 0, {}).n < n
    {
      EdgeDescends(d, tid, b, 0);
    }
    if n > 1 {
      var p :| ChainFrom(d, tid, p) && Workflows(d, p) == n;
      ChainTail(d, tid, p);
      NestingLevelExact(p[1], d, 0);
      assert NestingLevel(p[1], d, 0, {}).n >= Workflows(d, p[1..]);
    }
  }
}
