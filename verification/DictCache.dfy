/** A cache around a function from key tuples to dictionaries: only values that meet a condition are
    kept, and only keys without a cached value are asked for. */
module DictCache {
  import opened Wrappers
  import opened Sequences

  type Key = int
  type Value = int

  type Dict = map<Key, Value>

  /** What the underlying function answers for some keys if it treats every key on its own. */
  ghost predicate Answers(f: Key -> Option<Value>, keys: seq<Key>, d: Dict) {
    forall k :: (k in d <==> k in keys && f(k).Some?) && (k in d ==> f(k) == Some(d[k]))
  }

  function Answer(f: Key -> Option<Value>, keys: seq<Key>): (d: Dict)
    ensures Answers(f, keys, d)
  {
    map k | k in keys && f(k).Some? :: f(k).value
  }

  function CachedPart(cache: Dict, keys: seq<Key>): Dict {
    map k | k in keys && k in cache :: cache[k]
  }

  function Missing(cache: Dict, keys: seq<Key>): (m: seq<Key>)
    ensures forall k :: k in m <==> k in keys && k !in cache
  {
    if keys == [] then []
    else (if keys[0] in cache then [] else [keys[0]]) + Missing(cache, keys[1..])
  }

  /** The keys that are not cached, in their order and as often as they are requested. */
  lemma {:induction false} MissingInOrder(cache: Dict, keys: seq<Key>)
    ensures Missing(cache, keys) == Filter(keys, (k: Key) => k !in cache)
  {
    if keys != [] {
      MissingInOrder(cache, keys[1..]);
      hide Filter;
      FilterOne(keys[0], (k: Key) => k !in cache);
      FilterAppend([keys[0]], keys[1..], (k: Key) => k !in cache);
      assert keys == [keys[0]] + keys[1..];
    }
  }

  function Store(cache: Dict, result: Dict, condition: Value -> bool): Dict {
    cache + map k | k in result && condition(result[k]) :: result[k]
  }

  /** The cache holds only correct values that meet the condition. */
  ghost predicate Sound(cache: Dict, f: Key -> Option<Value>, condition: Value -> bool) {
    forall k :: k in cache ==> f(k) == Some(cache[k]) && condition(cache[k])
  }

  lemma AnswerUnique(f: Key -> Option<Value>, keys: seq<Key>, d: Dict)
    requires Answers(f, keys, d)
    ensures d == Answer(f, keys)
  {
    var answer := Answer(f, keys);
    assert Answers(f, keys, answer);
    assert forall k :: k in d <==> k in answer;
    assert forall k :: k in d ==> d[k] == answer[k];
  }

  /** Merging the fresh answer with the cached part gives the uncached answer. */
  lemma MergeIsAnswer(f: Key -> Option<Value>, condition: Value -> bool, before: Dict, keys: seq<Key>)
    requires Sound(before, f, condition)
    ensures Answer(f, Missing(before, keys)) + CachedPart(before, keys) == Answer(f, keys)
  {
    var missing := Missing(before, keys);
    assert Answers(f, missing, Answer(f, missing));
    AnswerUnique(f, keys, Answer(f, missing) + CachedPart(before, keys));
  }

  lemma StoreKeeps(f: Key -> Option<Value>, condition: Value -> bool, before: Dict, keys: seq<Key>)
    requires Sound(before, f, condition)
    ensures var after := Store(before, Answer(f, Missing(before, keys)), condition);
      && Sound(after, f, condition)
      && forall k :: k in after <==> k in before || (k in keys && f(k).Some? && condition(f(k).value))
  {
    var missing := Missing(before, keys);
    assert Answers(f, missing, Answer(f, missing));
  }

  /** The loop that keeps the values meeting the condition; `items` are the keys of the result in
      their order of insertion. */
  method StoreResult(cache: Dict, result: Dict, items: seq<Key>, condition: Value -> bool) returns (c: Dict)
    requires forall k :: k in result ==> k in items
    ensures c == Store(cache, result, condition)
  {
    c := cache;
    for i := 0 to |items|
      invariant forall k :: k in c <==> k in cache || (k in items[..i] && k in result && condition(result[k]))
      invariant forall k :: k in c ==> c[k] == if k in items[..i] && k in result && condition(result[k]) then result[k] else cache[k]
    {
      var k := items[i];
      assert items[..i + 1] == items[..i] + [k];
      if k in result && condition(result[k]) {
        c := c[k := result[k]];
      }
    }
    assert items[..|items|] == items;
    ghost var stored := Store(cache, result, condition);
    assert forall k :: k in c <==> k in stored;
    forall k | k in c ensures c[k] == stored[k] {
      assert k in result ==> k in items;
    }
  }

  // ----- the synchronous wrapper -----

  class CachedFunction {
    const f: Key -> Option<Value>
    const condition: Value -> bool
    var cache: Dict
    ghost var requests: seq<seq<Key>>  // the key tuples of all underlying calls that did not raise

    ghost predicate Cacheable(k: Key) {
      f(k).Some? && condition(f(k).value)
    }

    ghost predicate Valid()
      reads this
    {
      && Sound(cache, f, condition)
      && (forall i, k :: 0 <= i < |requests| && k in requests[i] && Cacheable(k) ==> k in cache)
      && (forall i, j, k :: 0 <= i < j < |requests| && k in requests[i] && k in requests[j] ==> !Cacheable(k))
    }

    constructor (f: Key -> Option<Value>, condition: Value -> bool)
      ensures Valid() && this.f == f && this.condition == condition && requests == []
    {
      this.f, this.condition := f, condition;
      cache, requests := map[], [];
    }

    /** The result is the uncached answer; the underlying call asks exactly for the keys not cached and
        is omitted if there are none; then every requested key with a cacheable value is cached. If the
        underlying call raises, nothing is cached. By `Valid` a cacheable key is part of at most one
        completed underlying call in the whole life of the wrapper. */
    method Call(keys: seq<Key>, raises: bool) returns (r: Option<Dict>)
      requires Valid()
      modifies this
      ensures Valid()
      ensures r.None? <==> raises && Missing(old(cache), keys) != []
      ensures r.Some? ==> Answers(f, keys, r.value)
      ensures r.Some? ==> requests == if Missing(old(cache), keys) == [] then old(requests) else old(requests) + [Missing(old(cache), keys)]
      ensures r.Some? ==> forall k :: k in cache <==> k in old(cache) || (k in keys && Cacheable(k))
      ensures r.None? ==> cache == old(cache) && requests == old(requests)
    {
      var cachedPart := CachedPart(cache, keys);
      var missing := Missing(cache, keys);
      MergeIsAnswer(f, condition, cache, keys);
      hide CachedPart;
      if missing == [] {
        assert Answer(f, missing) + cachedPart == cachedPart;
        return Some(cachedPart);
      }
      if raises {
        return None;
      }
      var result := Answer(f, missing);
      ghost var before := cache;
      cache := StoreResult(cache, result, missing, condition);
      StoreKeeps(f, condition, before, keys);
      requests := requests + [missing];
      r := Some(result + cachedPart);
    }
  }

  // ----- interleaved asynchronous calls -----

  datatype Run =
    | Waiting(keys: seq<Key>, cachedPart: Dict, missing: seq<Key>)
    | Done(keys: seq<Key>, result: Dict)
    | Raised(keys: seq<Key>)

  datatype World = World(cache: Dict, calls: seq<Run>)

  datatype Step = Start(keys: seq<Key>) | Return(call: nat) | Raise(call: nat)

  /** A call runs without interruption up to its await and again from there to its end. */
  ghost predicate Next(w: World, step: Step, w': World, f: Key -> Option<Value>, condition: Value -> bool) {
    match step
    case Start(keys) =>
      var missing := Missing(w.cache, keys);
      var cachedPart := CachedPart(w.cache, keys);
      w' == w.(calls := w.calls + [if missing == [] then Done(keys, cachedPart) else Waiting(keys, cachedPart, missing)])
    case Return(i) =>
      i < |w.calls| && w.calls[i].Waiting? &&
      var c := w.calls[i];
      var result := Answer(f, c.missing);
      w' == World(Store(w.cache, result, condition), w.calls[i := Done(c.keys, result + c.cachedPart)])
    case Raise(i) =>
      i < |w.calls| && w.calls[i].Waiting? && w' == w.(calls := w.calls[i := Raised(w.calls[i].keys)])
  }

  ghost predicate IsExecution(ws: seq<World>, steps: seq<Step>, f: Key -> Option<Value>, condition: Value -> bool) {
    && |ws| == |steps| + 1 && ws[0] == World(map[], [])
    && forall i :: 0 <= i < |steps| ==> Next(ws[i], steps[i], ws[i + 1], f, condition)
  }

  /** A waiting call still owes exactly the answers it did not find in the cache. */
  ghost predicate RunOk(c: Run, f: Key -> Option<Value>) {
    match c
    case Waiting(keys, cachedPart, missing) => Answers(f, keys, Answer(f, missing) + cachedPart)
    case Done(keys, result) => Answers(f, keys, result)
    case Raised(_) => true
  }

  ghost predicate Invariant(w: World, f: Key -> Option<Value>, condition: Value -> bool) {
    Sound(w.cache, f, condition) && forall i :: 0 <= i < |w.calls| ==> RunOk(w.calls[i], f)
  }

  lemma StepKeepsInvariant(w: World, step: Step, w': World, f: Key -> Option<Value>, condition: Value -> bool)
    requires Invariant(w, f, condition) && Next(w, step, w', f, condition)
    ensures Invariant(w', f, condition)
    ensures forall k :: k in w.cache ==> k in w'.cache && w'.cache[k] == w.cache[k]
  {
    match step
    case Start(keys) =>
      MergeIsAnswer(f, condition, w.cache, keys);
      if Missing(w.cache, keys) == [] {
        assert CachedPart(w.cache, keys) == Answer(f, keys);
      }
      assert RunOk(w'.calls[|w.calls|], f);
    case Return(i) =>
      assert RunOk(w.calls[i], f);
    case Raise(i) =>
  }

  /** In every interleaving the cache stays sound, never changes an entry, and every finished call has
      the uncached answer for exactly its keys. */
  lemma {:induction false} InterleavingsAreTransparent(ws: seq<World>, steps: seq<Step>, f: Key -> Option<Value>, condition: Value -> bool, n: nat)
    requires IsExecution(ws, steps, f, condition) && n < |ws|
    ensures Sound(ws[n].cache, f, condition)
    ensures forall i :: 0 <= i < |ws[n].calls| && ws[n].calls[i].Done? ==> Answers(f, ws[n].calls[i].keys, ws[n].calls[i].result)
    ensures Invariant(ws[n], f, condition)
    ensures forall m, k :: 0 <= m <= n && k in ws[m].cache ==> k in ws[n].cache && ws[n].cache[k] == ws[m].cache[k]
  {
    if n > 0 {
      InterleavingsAreTransparent(ws, steps, f, condition, n - 1);
      StepKeepsInvariant(ws[n - 1], steps[n - 1], ws[n], f, condition);
    }
    forall i | 0 <= i < |ws[n].calls| && ws[n].calls[i].Done?
      ensures Answers(f, ws[n].calls[i].keys, ws[n].calls[i].result)
    {
      assert RunOk(ws[n].calls[i], f);
    }
  }

  /** Step m starts a call that asks the underlying function for k. */
  ghost predicate AsksAt(ws: seq<World>, steps: seq<Step>, m: nat, k: Key)
    requires |ws| == |steps| + 1
  {
    m < |steps| && steps[m].Start? && k in Missing(ws[m].cache, steps[m].keys)
  }

  /** The call that step m starts has finished by the time n. */
  ghost predicate FinishedBy(ws: seq<World>, m: nat, n: nat) {
    m < n < |ws| && |ws[m].calls| < |ws[n].calls| && ws[n].calls[|ws[m].calls|].Done?
  }

  /** Every waiting call was started by some step that asked for just what it waits for. */
  lemma {:induction false} WaitingWasStarted(ws: seq<World>, steps: seq<Step>, f: Key -> Option<Value>, condition: Value -> bool, n: nat, i: nat) returns (m: nat)
    requires IsExecution(ws, steps, f, condition) && n < |ws| && i < |ws[n].calls| && ws[n].calls[i].Waiting?
    ensures m < n && steps[m].Start? && |ws[m].calls| == i && Missing(ws[m].cache, steps[m].keys) == ws[n].calls[i].missing
  {
    assert Next(ws[n - 1], steps[n - 1], ws[n], f, condition);
    if i == |ws[n - 1].calls| {
      m := n - 1;
    } else {
      m := WaitingWasStarted(ws, steps, f, condition, n - 1, i);
    }
  }

  /** A call that asked for k waits for it, has raised, or has finished and left k in the cache. */
  lemma {:induction false} AskedCall(ws: seq<World>, steps: seq<Step>, f: Key -> Option<Value>, condition: Value -> bool, m: nat, n: nat, k: Key)
    requires IsExecution(ws, steps, f, condition) && AsksAt(ws, steps, m, k) && m < n < |ws|
    requires f(k).Some? && condition(f(k).value)
    ensures |ws[m].calls| < |ws[n].calls|
    ensures var c := ws[n].calls[|ws[m].calls|];
      c.Raised? || (c.Waiting? && k in c.missing) || (c.Done? && k in ws[n].cache)
  {
    assert Next(ws[n - 1], steps[n - 1], ws[n], f, condition);
    if m < n - 1 {
      AskedCall(ws, steps, f, condition, m, n - 1, k);
      InterleavingsAreTransparent(ws, steps, f, condition, n);
    }
  }

  lemma {:induction false} CachedWasAsked(ws: seq<World>, steps: seq<Step>, f: Key -> Option<Value>, condition: Value -> bool, n: nat, k: Key)
    requires IsExecution(ws, steps, f, condition) && n < |ws| && k in ws[n].cache
    ensures exists m: nat :: AsksAt(ws, steps, m, k) && FinishedBy(ws, m, n)
  {
    assert Next(ws[n - 1], steps[n - 1], ws[n], f, condition);
    if k in ws[n - 1].cache {
      CachedWasAsked(ws, steps, f, condition, n - 1, k);
      var m: nat :| AsksAt(ws, steps, m, k) && FinishedBy(ws, m, n - 1);
      assert FinishedBy(ws, m, n);
    } else {
      var i := steps[n - 1].call;
      var m := WaitingWasStarted(ws, steps, f, condition, n - 1, i);
      assert k in Answer(f, ws[n - 1].calls[i].missing);
      assert AsksAt(ws, steps, m, k) && FinishedBy(ws, m, n);
    }
  }

  /** In every execution, starting a call with a cacheable key asks for it exactly if no call that asked
      for it before has finished: all of those still wait or have raised. */
  lemma AskedAgainExactly(ws: seq<World>, steps: seq<Step>, f: Key -> Option<Value>, condition: Value -> bool, n: nat, k: Key)
    requires IsExecution(ws, steps, f, condition) && n < |steps| && steps[n].Start? && k in steps[n].keys
    requires f(k).Some? && condition(f(k).value)
    ensures AsksAt(ws, steps, n, k) <==> forall m: nat :: AsksAt(ws, steps, m, k) ==> !FinishedBy(ws, m, n)
    ensures AsksAt(ws, steps, n, k) ==> forall m: nat :: AsksAt(ws, steps, m, k) && m < n ==>
      |ws[m].calls| < |ws[n].calls| && !ws[n].calls[|ws[m].calls|].Done?
  {
    if k in ws[n].cache {
      CachedWasAsked(ws, steps, f, condition, n, k);
    }
    forall m: nat | AsksAt(ws, steps, m, k) && m < n && k !in ws[n].cache
      ensures |ws[m].calls| < |ws[n].calls| && !ws[n].calls[|ws[m].calls|].Done?
    {
      AskedCall(ws, steps, f, condition, m, n, k);
    }
  }

  /** Asking at most once is a property of sequential use only: two overlapping calls can both ask
      for the same cacheable key. */
  lemma OverlappingCallsAskTwice(f: Key -> Option<Value>, condition: Value -> bool, k: Key) returns (ws: seq<World>, steps: seq<Step>)
    requires f(k).Some? && condition(f(k).value)
    ensures IsExecution(ws, steps, f, condition) && |steps| == 2
    ensures |ws[2].calls| == 2 && ws[2].calls[0] == ws[2].calls[1] == Waiting([k], map[], [k])
  {
    var none: Dict := map[];
    assert [k][1..] == [] && Missing(none, []) == [];
    assert Missing(none, [k]) == [k];
    var c := Waiting([k], map[], [k]);
    steps := [Start([k]), Start([k])];
    ws := [World(map[], []), World(map[], [c]), World(map[], [c, c])];
    assert CachedPart(none, [k]) == none;
    assert [] + [c] == [c] && [c] + [c] == [c, c];
    assert Next(ws[0], steps[0], ws[1], f, condition);
    assert Next(ws[1], steps[1], ws[2], f, condition);
  }
}
