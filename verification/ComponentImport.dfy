/** Dynamic import of component code: components import each other while their module code runs,
    guarded by a table of modules that are currently being imported. */
module ComponentImport {
  import opened Sequences

  type Uuid = int

  datatype Outcome = Completes | SyntaxError | Raises

  /** What running a code module does: import other components, in order, then complete or raise;
      a syntax error shows before anything runs. A module path is a hash of the code, taken to be
      injective, so a code value also stands for its module path. */
  datatype Code = Code(text: string, imports: seq<Uuid>, outcome: Outcome)

  /** Code module ids by revision id, and code by code module id. */
  datatype Env = Env(revisions: map<Uuid, Uuid>, modules: map<Uuid, Code>) {
    predicate Resolves(t: Uuid) {
      t in revisions && revisions[t] in modules
    }
  }

  datatype Result = Ok | CodeImportError | CycleError | NotFoundError

  /** `flags`: ids marked as being imported; `registry`: registered module paths; `completed`: the
      module bodies that ran to completion, in order. */
  datatype State = State(flags: set<Uuid>, registry: set<Code>, completed: seq<Code>)

  // ----- the computation -----

  function RunModule(u: Uuid, env: Env, st: State): (out: (State, Result))
    requires u in env.modules
    ensures st.flags <= out.0.flags && st.registry <= out.0.registry
    ensures out.1.Ok? ==> out.0.flags == st.flags && env.modules[u] in out.0.registry
    decreases env.modules.Keys - st.flags, 0, 0
  {
    var code := env.modules[u];
    if u in st.flags then (st, CycleError)
    else
      var marked := st.(flags := st.flags + {u});
      if code in st.registry then (st, Ok)
      else if code.outcome.SyntaxError? then (marked, CodeImportError)
      else
        assert u in env.modules.Keys - st.flags;
        var (ran, r) := RunAll(code.imports, env, marked);
        if !r.Ok? || code.outcome.Raises? then (ran, CodeImportError)
        else (State(ran.flags - {u}, ran.registry + {code}, ran.completed + [code]), Ok)
  }

  function RunComp(t: Uuid, env: Env, st: State): (out: (State, Result))
    ensures st.flags <= out.0.flags && st.registry <= out.0.registry
    ensures out.1.Ok? ==> out.0.flags == st.flags && env.Resolves(t) && env.modules[env.revisions[t]] in out.0.registry
    decreases env.modules.Keys - st.flags, 1, 0
  {
    if env.Resolves(t) then RunModule(env.revisions[t], env, st) else (st, CodeImportError)
  }

  function RunAll(imports: seq<Uuid>, env: Env, st: State): (out: (State, Result))
    ensures st.flags <= out.0.flags && st.registry <= out.0.registry
    ensures out.1.Ok? ==> out.0.flags == st.flags
    decreases env.modules.Keys - st.flags, 2, |imports|
  {
    if imports == [] then (st, Ok)
    else
      var (st1, r) := RunComp(imports[0], env, st);
      if r.Ok? then RunAll(imports[1..], env, st1) else (st1, r)
  }

  /** With `raise_if_not_found` a module that is not registered is not run at all. */
  function RunIfFound(u: Uuid, env: Env, st: State): (State, Result)
    requires u in env.modules
  {
    if u !in st.flags && env.modules[u] !in st.registry then (st.(flags := st.flags + {u}), NotFoundError)
    else RunModule(u, env, st)
  }

  /** Without registering, the module's code runs, and its imports are registered, but not the module. */
  function RunUnregistered(u: Uuid, env: Env, st: State): State
    requires u in env.modules
  {
    var ran := RunModule(u, env, st).0;
    if env.modules[u] in st.registry then ran else ran.(registry := ran.registry - {env.modules[u]})
  }

  class ExecutionContext {
    const env: Env
    var currentlyImporting: map<Uuid, bool>
    var codeHashDict: map<Uuid, Code>
    var sysModules: set<Code>
    ghost var completed: seq<Code>

    ghost predicate Valid()
      reads this
    {
      forall u :: u in codeHashDict && u in env.modules ==> codeHashDict[u] == env.modules[u]
    }

    ghost function Abstract(): State
      reads this
    {
      State((set u | u in currentlyImporting && currentlyImporting[u]), sysModules, completed)
    }

    constructor (env: Env, sysModules: set<Code>)
      ensures Valid() && this.env == env
      ensures Abstract() == State({}, sysModules, [])
    {
      this.env := env;
      this.sysModules := sysModules;
      currentlyImporting := map[];
      codeHashDict := map[];
      completed := [];
    }

    /** The module path for a code module, computed once per id. */
    method GetCodeHash(u: Uuid) returns (path: Code)
      requires Valid() && u in env.modules
      modifies this`codeHashDict
      ensures Valid() && path == env.modules[u]
    {
      if u !in codeHashDict {
        codeHashDict := codeHashDict[u := env.modules[u]];
      }
      path := codeHashDict[u];
    }

    method ImportFromCodeModule(u: Uuid, raiseIfNotFound: bool := false, registerModule: bool := true) returns (r: Result)
      requires Valid() && u in env.modules
      modifies this
      ensures Valid()
      ensures raiseIfNotFound ==> (Abstract(), r) == RunIfFound(u, env, old(Abstract()))
      ensures !raiseIfNotFound ==> r == RunModule(u, env, old(Abstract())).1
      ensures !raiseIfNotFound ==>
        Abstract() == if registerModule || !r.Ok? then RunModule(u, env, old(Abstract())).0 else RunUnregistered(u, env, old(Abstract()))
      decreases env.modules.Keys - Abstract().flags, 0, 0
    {
      ghost var st := Abstract();
      var path := GetCodeHash(u);
      if u in currentlyImporting && currentlyImporting[u] {
        return CycleError;
      }
      currentlyImporting := currentlyImporting[u := true];
      assert Abstract() == st.(flags := st.flags + {u});
      if path !in sysModules {
        if raiseIfNotFound {
          return NotFoundError;
        }
        if path.outcome.SyntaxError? {
          return CodeImportError;
        }
        assert u in env.modules.Keys - st.flags;
        var ran := Execute(path);
        if !ran.Ok? || path.outcome.Raises? {
          return CodeImportError;
        }
        NotRegisteredMeanwhile(u, env, st);
        if registerModule {
          sysModules := sysModules + {path};
        }
        completed := completed + [path];
      }
      ghost var flagged := Abstract().flags;
      currentlyImporting := currentlyImporting[u := false];
      assert Abstract().flags == flagged - {u};
      assert st.flags + {u} - {u} == st.flags;
      return Ok;
    }

    /** Running module code calls back into `import_comp`. */
    method Execute(code: Code) returns (r: Result)
      requires Valid()
      modifies this
      ensures Valid() && (Abstract(), r) == RunAll(code.imports, env, old(Abstract()))
      decreases env.modules.Keys - Abstract().flags, 2, 0
    {
      ghost var st := Abstract();
      for i := 0 to |code.imports|
        invariant Valid() && Abstract().flags == st.flags
        invariant RunAll(code.imports, env, st) == RunAll(code.imports[i..], env, Abstract())
      {
        assert code.imports[i..][1..] == code.imports[i + 1..];
        r := ImportComp(code.imports[i]);
        if !r.Ok? {
          return r;
        }
      }
      return Ok;
    }

    method ImportComp(t: Uuid) returns (r: Result)
      requires Valid()
      modifies this
      ensures Valid() && (Abstract(), r) == RunComp(t, env, old(Abstract()))
      decreases env.modules.Keys - Abstract().flags, 1, 0
    {
      if t !in env.revisions || env.revisions[t] !in env.modules {
        return CodeImportError;
      }
      r := ImportFromCodeModule(env.revisions[t]);
    }
  }

  // ----- the reference: the graph of modules that still have to run -----

  /** Running `u` imports `v`; modules whose path is registered do not run. */
  ghost predicate Edge(env: Env, registry: set<Code>, u: Uuid, v: Uuid) {
    u in env.modules && env.modules[u] !in registry &&
    exists t :: t in env.modules[u].imports && env.Resolves(t) && env.revisions[t] == v
  }

  ghost predicate ChainFrom(env: Env, registry: set<Code>, u: Uuid, p: seq<Uuid>) {
    p != [] && p[0] == u && forall i :: 0 <= i < |p| - 1 ==> Edge(env, registry, p[i], p[i + 1])
  }

  /** Nothing in the module itself makes its import fail. */
  ghost predicate NodeOk(env: Env, registry: set<Code>, u: Uuid) {
    u in env.modules &&
    (env.modules[u] in registry ||
     (env.modules[u].outcome.Completes? && forall t :: t in env.modules[u].imports ==> env.Resolves(t)))
  }

  ghost predicate GoodChain(env: Env, registry: set<Code>, flags: set<Uuid>, p: seq<Uuid>)
    requires p != []
  {
    Distinct(p) && (forall i :: 0 <= i < |p| ==> p[i] !in flags) && NodeOk(env, registry, p[|p| - 1])
  }

  /** No cycle, no flagged module, nothing missing and nothing broken can be reached. */
  ghost predicate Importable(env: Env, registry: set<Code>, flags: set<Uuid>, u: Uuid) {
    forall p :: ChainFrom(env, registry, u, p) ==> GoodChain(env, registry, flags, p)
  }

  ghost predicate AllImportable(env: Env, registry: set<Code>, flags: set<Uuid>, imports: seq<Uuid>) {
    forall t :: t in imports ==> env.Resolves(t) && Importable(env, registry, flags, env.revisions[t])
  }

  /** `later` extends `registry` by modules that complete and whose imports are importable. */
  ghost predicate Extends(env: Env, registry: set<Code>, later: set<Code>, flags: set<Uuid>) {
    registry <= later &&
    forall c :: c in later && c !in registry ==> c.outcome.Completes? && AllImportable(env, registry, flags, c.imports)
  }

  // ----- chains -----

  lemma ChainJoin(env: Env, registry: set<Code>, u: Uuid, p: seq<Uuid>, q: seq<Uuid>)
    requires ChainFrom(env, registry, u, p) && q != [] && ChainFrom(env, registry, q[0], q)
    requires Edge(env, registry, p[|p| - 1], q[0])
    ensures ChainFrom(env, registry, u, p + q)
  {
  }

  lemma ChainSlice(env: Env, registry: set<Code>, u: Uuid, p: seq<Uuid>, i: nat, j: nat)
    requires ChainFrom(env, registry, u, p) && i < j <= |p|
    ensures ChainFrom(env, registry, p[i], p[i..j])
  {
    forall k | 0 <= k < j - i - 1 ensures Edge(env, registry, p[i..j][k], p[i..j][k + 1]) {
      assert Edge(env, registry, p[i + k], p[i + k + 1]);
    }
  }

  lemma ChainWeaken(env: Env, registry: set<Code>, later: set<Code>, u: Uuid, p: seq<Uuid>)
    requires registry <= later && ChainFrom(env, later, u, p)
    ensures ChainFrom(env, registry, u, p)
  {
    forall i | 0 <= i < |p| - 1 ensures Edge(env, registry, p[i], p[i + 1]) {
      assert Edge(env, later, p[i], p[i + 1]);
    }
  }

  lemma ChainContinue(env: Env, registry: set<Code>, u: Uuid, p: seq<Uuid>, q: seq<Uuid>)
    requires ChainFrom(env, registry, u, p) && ChainFrom(env, registry, p[|p| - 1], q)
    ensures ChainFrom(env, registry, u, p[..|p| - 1] + q)
  {
    var n, whole := |p| - 1, p[..|p| - 1] + q;
    forall i | 0 <= i < |whole| - 1 ensures Edge(env, registry, whole[i], whole[i + 1]) {
      if i < n {
        assert Edge(env, registry, p[i], p[i + 1]);
      } else {
        assert Edge(env, registry, q[i - n], q[i - n + 1]);
      }
    }
  }

  /** Everything on a chain from an importable module is importable. */
  lemma ImportableSuffix(env: Env, registry: set<Code>, flags: set<Uuid>, u: Uuid, p: seq<Uuid>)
    requires Importable(env, registry, flags, u) && ChainFrom(env, registry, u, p)
    ensures Importable(env, registry, flags, p[|p| - 1])
  {
    var n := |p| - 1;
    forall q | ChainFrom(env, registry, p[n], q) ensures GoodChain(env, registry, flags, q) {
      var whole := p[..n] + q;
      ChainContinue(env, registry, u, p, q);
      assert GoodChain(env, registry, flags, whole);
      assert forall i :: 0 <= i < |q| ==> whole[n + i] == q[i];
    }
  }

  lemma ImportableFewerFlags(env: Env, registry: set<Code>, flags: set<Uuid>, fewer: set<Uuid>, u: Uuid)
    requires Importable(env, registry, flags, u) && fewer <= flags
    ensures Importable(env, registry, fewer, u)
  {
    forall p | ChainFrom(env, registry, u, p) ensures GoodChain(env, registry, fewer, p) {
      assert GoodChain(env, registry, flags, p);
    }
  }

  lemma ExtendsFewerFlags(env: Env, registry: set<Code>, later: set<Code>, flags: set<Uuid>, fewer: set<Uuid>)
    requires Extends(env, registry, later, flags) && fewer <= flags
    ensures Extends(env, registry, later, fewer)
  {
    forall c, t | c in later && c !in registry && t in c.imports
      ensures env.Resolves(t) && Importable(env, registry, fewer, env.revisions[t])
    {
      assert AllImportable(env, registry, flags, c.imports);
      ImportableFewerFlags(env, registry, flags, fewer, env.revisions[t]);
    }
  }

  /** Registering modules whose own imports are importable changes nothing: what is importable
      relative to the larger registry was importable before, and conversely. */
  lemma ImportableTransfer(env: Env, registry: set<Code>, later: set<Code>, flags: set<Uuid>, u: Uuid)
    requires Extends(env, registry, later, flags)
    ensures Importable(env, registry, flags, u) <==> Importable(env, later, flags, u)
  {
    if Importable(env, registry, flags, u) {
      forall p | ChainFrom(env, later, u, p) ensures GoodChain(env, later, flags, p) {
        ChainWeaken(env, registry, later, u, p);
        assert GoodChain(env, registry, flags, p);
      }
    }
    if Importable(env, later, flags, u) {
      forall p | ChainFrom(env, registry, u, p) ensures GoodChain(env, registry, flags, p) {
        TransferChain(env, registry, later, flags, u, p);
      }
    }
  }

  lemma TransferChain(env: Env, registry: set<Code>, later: set<Code>, flags: set<Uuid>, u: Uuid, p: seq<Uuid>)
    requires Extends(env, registry, later, flags)
    requires Importable(env, later, flags, u) && ChainFrom(env, registry, u, p)
    ensures GoodChain(env, registry, flags, p)
  {
    var n := |p| - 1;
    var i := 0;
    while i < n && env.modules[p[i]] !in later
      invariant 0 <= i <= n
      invariant i < n ==> Edge(env, registry, p[i], p[i + 1])
      invariant forall k :: 0 <= k < i ==> Edge(env, later, p[k], p[k + 1])
    {
      assert i + 1 < n ==> Edge(env, registry, p[i + 1], p[i + 2]);
      i := i + 1;
    }
    if i < n {
      SplitChain(env, registry, later, flags, u, p, i);
    } else {
      assert ChainFrom(env, later, u, p);
      assert GoodChain(env, later, flags, p);
    }
  }

  /** `p[i]` is registered in between: the chain before it and the chain behind it are both good,
      and they cannot share a module, for that would close a cycle behind `p[i]`. */
  lemma SplitChain(env: Env, registry: set<Code>, later: set<Code>, flags: set<Uuid>, u: Uuid, p: seq<Uuid>, i: nat)
    requires Extends(env, registry, later, flags)
    requires Importable(env, later, flags, u) && ChainFrom(env, registry, u, p)
    requires i < |p| - 1 && p[i] in env.modules && env.modules[p[i]] in later
    requires forall k :: 0 <= k < i ==> Edge(env, later, p[k], p[k + 1])
    ensures GoodChain(env, registry, flags, p)
  {
    var front, back := p[..i + 1], p[i + 1..];
    assert ChainFrom(env, later, u, front);
    assert GoodChain(env, later, flags, front);
    assert Edge(env, registry, p[i], p[i + 1]);
    assert AllImportable(env, registry, flags, env.modules[p[i]].imports);
    assert Importable(env, registry, flags, p[i + 1]);
    ChainSlice(env, registry, u, p, i + 1, |p|);
    assert p[i + 1..|p|] == back;
    assert GoodChain(env, registry, flags, back);
    forall j, k | 0 <= j <= i < k < |p| ensures p[j] != p[k] {
      if p[j] == p[k] {
        CloseCycle(env, registry, flags, u, p, i, j, k);
      }
    }
    GoodJoined(env, registry, later, flags, p, i + 1);
  }

  /** Two parts that are good and have no module in common make a good chain. */
  lemma GoodJoined(env: Env, registry: set<Code>, later: set<Code>, flags: set<Uuid>, p: seq<Uuid>, n: nat)
    requires 0 < n < |p| && GoodChain(env, later, flags, p[..n]) && GoodChain(env, registry, flags, p[n..])
    requires forall j, k :: 0 <= j < n <= k < |p| ==> p[j] != p[k]
    ensures GoodChain(env, registry, flags, p)
  {
    hide NodeOk;
    var front, back := p[..n], p[n..];
    forall k | 0 <= k < |p| ensures p[k] !in flags {
      assert p[k] == if k < n then front[k] else back[k - n];
    }
    forall j, k | 0 <= j < k < |p| ensures p[j] != p[k] {
      if k < n {
        assert front[j] != front[k];
      } else if n <= j {
        assert back[j - n] != back[k - n];
      }
    }
  }

  lemma CloseCycle(env: Env, registry: set<Code>, flags: set<Uuid>, u: Uuid, p: seq<Uuid>, i: nat, j: nat, k: nat)
    requires ChainFrom(env, registry, u, p) && j <= i < k < |p| && p[j] == p[k]
    ensures !Importable(env, registry, flags, p[i + 1])
  {
    ChainSlice(env, registry, u, p, i + 1, k + 1);
    ChainSlice(env, registry, u, p, j + 1, i + 2);
    assert Edge(env, registry, p[j], p[j + 1]);
    var q := p[i + 1..k + 1] + p[j + 1..i + 2];
    ChainJoin(env, registry, p[i + 1], p[i + 1..k + 1], p[j + 1..i + 2]);
    assert q[0] == q[|q| - 1] && !GoodChain(env, registry, flags, q);
  }

  // ----- imports succeed exactly on importable modules -----

  lemma {:induction false} RunModuleExact(u: Uuid, env: Env, st: State)
    requires u in env.modules
    ensures RunModule(u, env, st).1.Ok? <==> Importable(env, st.registry, st.flags, u)
    ensures Extends(env, st.registry, RunModule(u, env, st).0.registry, st.flags)
    decreases env.modules.Keys - st.flags, 0, 0
  {
    var code := env.modules[u];
    assert ChainFrom(env, st.registry, u, [u]);
    if u in st.flags {
      assert [u][0] in st.flags;
    } else if code in st.registry {
      forall p | ChainFrom(env, st.registry, u, p) ensures GoodChain(env, st.registry, st.flags, p) {
        assert |p| > 1 ==> Edge(env, st.registry, p[0], p[1]);
      }
    } else if code.outcome.SyntaxError? {
      assert !NodeOk(env, st.registry, [u][0]);
    } else {
      var marked := st.(flags := st.flags + {u});
      assert u in env.modules.Keys - st.flags;
      RunAllExact(code.imports, env, marked);
      ImportableByImports(u, env, st);
      var ran := RunAll(code.imports, env, marked).0;
      ExtendsFewerFlags(env, st.registry, ran.registry, marked.flags, st.flags);
      if AllImportable(env, st.registry, marked.flags, code.imports) {
        forall t | t in code.imports ensures Importable(env, st.registry, st.flags, env.revisions[t]) {
          ImportableFewerFlags(env, st.registry, marked.flags, st.flags, env.revisions[t]);
        }
      }
    }
  }

  lemma ImportsImportable(u: Uuid, env: Env, reg: set<Code>, flags: set<Uuid>)
    requires u in env.modules && env.modules[u] !in reg && Importable(env, reg, flags, u)
    ensures env.modules[u].outcome.Completes? && AllImportable(env, reg, flags + {u}, env.modules[u].imports)
  {
    var code := env.modules[u];
    assert ChainFrom(env, reg, u, [u]);
    assert GoodChain(env, reg, flags, [u]);
    forall t, p | t in code.imports && env.Resolves(t) && ChainFrom(env, reg, env.revisions[t], p) ensures GoodChain(env, reg, flags + {u}, p) {
      assert Edge(env, reg, u, env.revisions[t]);
      ChainJoin(env, reg, u, [u], p);
      var q := [u] + p;
      assert GoodChain(env, reg, flags, q);
      assert forall i :: 0 <= i < |p| ==> q[i + 1] == p[i] && q[0] != q[i + 1];
    }
  }

  lemma ImportableAbove(u: Uuid, env: Env, reg: set<Code>, flags: set<Uuid>)
    requires u in env.modules && u !in flags && env.modules[u] !in reg
    requires env.modules[u].outcome.Completes? && AllImportable(env, reg, flags + {u}, env.modules[u].imports)
    ensures Importable(env, reg, flags, u)
  {
    forall p | ChainFrom(env, reg, u, p) ensures GoodChain(env, reg, flags, p) {
      if |p| > 1 {
        assert Edge(env, reg, p[0], p[1]);
        ChainSlice(env, reg, u, p, 1, |p|);
        var q := p[1..|p|];
        assert GoodChain(env, reg, flags + {u}, q);
        assert forall i :: 0 < i < |p| ==> p[i] == q[i - 1];
      }
    }
  }

  lemma ImportableByImports(u: Uuid, env: Env, st: State)
    requires u in env.modules && u !in st.flags && env.modules[u] !in st.registry
    ensures Importable(env, st.registry, st.flags, u) <==>
      env.modules[u].outcome.Completes? && AllImportable(env, st.registry, st.flags + {u}, env.modules[u].imports)
  {
    hide Importable;
    if Importable(env, st.registry, st.flags, u) {
      ImportsImportable(u, env, st.registry, st.flags);
    } else if env.modules[u].outcome.Completes? && AllImportable(env, st.registry, st.flags + {u}, env.modules[u].imports) {
      ImportableAbove(u, env, st.registry, st.flags);
    }
  }

  lemma {:induction false} RunAllExact(imports: seq<Uuid>, env: Env, st: State)
    ensures RunAll(imports, env, st).1.Ok? <==> AllImportable(env, st.registry, st.flags, imports)
    ensures Extends(env, st.registry, RunAll(imports, env, st).0.registry, st.flags)
    decreases env.modules.Keys - st.flags, 2, |imports|
  {
    if imports != [] {
      var t, rest := imports[0], imports[1..];
      assert forall x :: x in imports <==> x == t || x in rest;
      var (st1, r) := RunComp(t, env, st);
      if env.Resolves(t) {
        RunModuleExact(env.revisions[t], env, st);
      }
      if r.Ok? {
        RunAllExact(rest, env, st1);
        var later := RunAll(rest, env, st1).0.registry;
        AllTransfer(env, st.registry, st1.registry, st.flags, rest);
        forall c | c in later && c !in st.registry
          ensures c.outcome.Completes? && AllImportable(env, st.registry, st.flags, c.imports)
        {
          if c !in st1.registry {
            AllTransfer(env, st.registry, st1.registry, st.flags, c.imports);
          }
        }
      }
    }
  }

  lemma AllTransfer(env: Env, registry: set<Code>, later: set<Code>, flags: set<Uuid>, imports: seq<Uuid>)
    requires Extends(env, registry, later, flags)
    ensures AllImportable(env, registry, flags, imports) <==> AllImportable(env, later, flags, imports)
  {
    forall t | t in imports && env.Resolves(t)
      ensures Importable(env, registry, flags, env.revisions[t]) <==> Importable(env, later, flags, env.revisions[t])
    {
      ImportableTransfer(env, registry, later, flags, env.revisions[t]);
    }
  }

  /** From a fresh context, whatever is registered: an import succeeds exactly when the revision and
      its code are known and nothing reachable is cyclic, missing or broken. */
  lemma FreshImportExact(t: Uuid, env: Env, registry: set<Code>)
    ensures RunComp(t, env, State({}, registry, [])).1.Ok? <==>
      env.Resolves(t) && Importable(env, registry, {}, env.revisions[t])
  {
    if env.Resolves(t) {
      RunModuleExact(env.revisions[t], env, State({}, registry, []));
    }
  }

  // ----- the registry stays closed under imports -----

  /** Every module registered since `initial` has its imports registered. */
  ghost predicate Closed(env: Env, initial: set<Code>, registry: set<Code>) {
    forall c, t :: c in registry && c !in initial && t in c.imports ==> env.Resolves(t) && env.modules[env.revisions[t]] in registry
  }

  /** Also a failing import leaves every module registered since with all its imports registered. */
  lemma {:induction false} RunModuleCloses(u: Uuid, env: Env, st: State, initial: set<Code>)
    requires u in env.modules && Closed(env, initial, st.registry)
    ensures Closed(env, initial, RunModule(u, env, st).0.registry)
    decreases env.modules.Keys - st.flags, 0, 0
  {
    var code := env.modules[u];
    if u !in st.flags && code !in st.registry && !code.outcome.SyntaxError? {
      assert u in env.modules.Keys - st.flags;
      RunAllCloses(code.imports, env, st.(flags := st.flags + {u}), initial);
    }
  }

  lemma {:induction false} RunAllCloses(imports: seq<Uuid>, env: Env, st: State, initial: set<Code>)
    requires Closed(env, initial, st.registry)
    ensures Closed(env, initial, RunAll(imports, env, st).0.registry)
    ensures RunAll(imports, env, st).1.Ok? ==>
      forall t :: t in imports ==> env.Resolves(t) && env.modules[env.revisions[t]] in RunAll(imports, env, st).0.registry
    decreases env.modules.Keys - st.flags, 2, |imports|
  {
    if imports != [] {
      var t, rest := imports[0], imports[1..];
      assert forall x :: x in imports <==> x == t || x in rest;
      var (st1, r) := RunComp(t, env, st);
      if env.Resolves(t) {
        RunModuleCloses(env.revisions[t], env, st, initial);
      }
      if r.Ok? {
        RunAllCloses(rest, env, st1, initial);
      }
    }
  }

  // ----- every module body completes at most once -----

  /** Since the registry was `initial`, the completed bodies are pairwise different, were not
      registered before and are exactly the modules registered since. */
  ghost predicate Logged(initial: set<Code>, st: State) {
    && Distinct(st.completed)
    && (forall c :: c in st.completed ==> c !in initial)
    && (forall c :: c in st.registry <==> c in initial || c in st.completed)
  }

  lemma {:induction false} RunModuleLogs(u: Uuid, env: Env, st: State, initial: set<Code>)
    requires u in env.modules && Logged(initial, st)
    ensures Logged(initial, RunModule(u, env, st).0)
    decreases env.modules.Keys - st.flags, 0, 0
  {
    var code := env.modules[u];
    if u !in st.flags && code !in st.registry && !code.outcome.SyntaxError? {
      var marked := st.(flags := st.flags + {u});
      assert u in env.modules.Keys - st.flags;
      RunAllLogs(code.imports, env, marked, initial);
      if RunAll(code.imports, env, marked).1.Ok? {
        NotRegisteredMeanwhile(u, env, st);
      }
    }
  }

  lemma {:induction false} RunAllLogs(imports: seq<Uuid>, env: Env, st: State, initial: set<Code>)
    requires Logged(initial, st)
    ensures Logged(initial, RunAll(imports, env, st).0)
    decreases env.modules.Keys - st.flags, 2, |imports|
  {
    if imports != [] {
      var (st1, r) := RunComp(imports[0], env, st);
      if env.Resolves(imports[0]) {
        RunModuleLogs(env.revisions[imports[0]], env, st, initial);
      }
      if r.Ok? {
        RunAllLogs(imports[1..], env, st1, initial);
      }
    }
  }

  /** Registering the module or not makes no difference to anything else. */
  lemma UnregisteredExact(u: Uuid, env: Env, st: State)
    requires u in env.modules && RunModule(u, env, st).1.Ok?
    ensures var ran, out := RunModule(u, env, st).0, RunUnregistered(u, env, st);
      && out.flags == ran.flags && out.completed == ran.completed
      && out.registry == if env.modules[u] in st.registry then st.registry else RunAll(env.modules[u].imports, env, st.(flags := st.flags + {u})).0.registry
  {
    if env.modules[u] !in st.registry {
      NotRegisteredMeanwhile(u, env, st);
    }
  }

  /** While a module body runs to completion, no other module with the same code does. */
  lemma NotRegisteredMeanwhile(u: Uuid, env: Env, st: State)
    requires u in env.modules && u !in st.flags && env.modules[u] !in st.registry
    requires RunAll(env.modules[u].imports, env, st.(flags := st.flags + {u})).1.Ok?
    ensures env.modules[u] !in RunAll(env.modules[u].imports, env, st.(flags := st.flags + {u})).0.registry
  {
    var code, marked := env.modules[u], st.(flags := st.flags + {u});
    RunAllExact(code.imports, env, marked);
    RunAllReached(code.imports, env, marked);
    forall t, p | t in code.imports && env.Resolves(t) && ChainFrom(env, st.registry, env.revisions[t], p)
      ensures !EndsWith(env, p, code)
    {
      if EndsWith(env, p, code) {
        LoopBack(env, st.registry, marked.flags, code, t, p);
      }
    }
  }

  ghost predicate EndsWith(env: Env, p: seq<Uuid>, c: Code) {
    p != [] && p[|p| - 1] in env.modules && env.modules[p[|p| - 1]] == c
  }

  lemma LoopBack(env: Env, registry: set<Code>, flags: set<Uuid>, c: Code, t: Uuid, p: seq<Uuid>)
    requires c !in registry && t in c.imports && env.Resolves(t)
    requires ChainFrom(env, registry, env.revisions[t], p) && EndsWith(env, p, c)
    ensures !Importable(env, registry, flags, env.revisions[t])
  {
    var v := env.revisions[t];
    assert Edge(env, registry, p[|p| - 1], v);
    ChainJoin(env, registry, v, p, [v]);
    var q := p + [v];
    assert q[0] == q[|q| - 1] && !GoodChain(env, registry, flags, q);
  }

  /** Every newly registered module lies on a chain from the imported one. */
  lemma {:induction false} RunModuleReached(u: Uuid, env: Env, st: State)
    requires u in env.modules
    ensures forall c :: c in RunModule(u, env, st).0.registry && c !in st.registry ==>
              exists p :: ChainFrom(env, st.registry, u, p) && EndsWith(env, p, c)
    decreases env.modules.Keys - st.flags, 0, 0
  {
    var code := env.modules[u];
    if u !in st.flags && code !in st.registry && !code.outcome.SyntaxError? {
      var marked := st.(flags := st.flags + {u});
      assert u in env.modules.Keys - st.flags;
      RunAllReached(code.imports, env, marked);
      assert ChainFrom(env, st.registry, u, [u]) && EndsWith(env, [u], code);
      forall c | c in RunAll(code.imports, env, marked).0.registry && c !in st.registry
        ensures exists p :: ChainFrom(env, st.registry, u, p) && EndsWith(env, p, c)
      {
        var t, p :| t in code.imports && env.Resolves(t) && ChainFrom(env, st.registry, env.revisions[t], p) && EndsWith(env, p, c);
        assert Edge(env, st.registry, u, env.revisions[t]);
        ChainJoin(env, st.registry, u, [u], p);
        assert EndsWith(env, [u] + p, c);
      }
    }
  }

  lemma {:induction false} RunAllReached(imports: seq<Uuid>, env: Env, st: State)
    ensures forall c :: c in RunAll(imports, env, st).0.registry && c !in st.registry ==>
              exists t, p :: t in imports && env.Resolves(t) && ChainFrom(env, st.registry, env.revisions[t], p) && EndsWith(env, p, c)
    decreases env.modules.Keys - st.flags, 2, |imports|
  {
    if imports != [] {
      var t0, rest := imports[0], imports[1..];
      var (st1, r) := RunComp(t0, env, st);
      if env.Resolves(t0) {
        RunModuleReached(env.revisions[t0], env, st);
      }
      if r.Ok? {
        RunAllReached(rest, env, st1);
        forall c | c in RunAll(rest, env, st1).0.registry && c !in st1.registry
          ensures exists t, p :: t in imports && env.Resolves(t) && ChainFrom(env, st.registry, env.revisions[t], p) && EndsWith(env, p, c)
        {
          var t, p :| t in rest && env.Resolves(t) && ChainFrom(env, st1.registry, env.revisions[t], p) && EndsWith(env, p, c);
          ChainWeaken(env, st.registry, st1.registry, env.revisions[t], p);
        }
      }
    }
  }

  /** Chains behind a module registered since `initial` stay inside the registry. */
  lemma {:induction false} ChainRegistered(env: Env, initial: set<Code>, registry: set<Code>, u: Uuid, p: seq<Uuid>)
    requires Closed(env, initial, registry) && ChainFrom(env, initial, u, p)
    requires u in env.modules && env.modules[u] in registry
    ensures forall i :: 0 <= i < |p| ==> p[i] in env.modules && env.modules[p[i]] in registry
    decreases |p|
  {
    if |p| > 1 {
      assert Edge(env, initial, p[0], p[1]);
      ChainSlice(env, initial, u, p, 1, |p|);
      assert p[1..|p|] == p[1..];
      ChainRegistered(env, initial, registry, p[1], p[1..]);
    }
  }

  // ----- what an import leaves registered, whether it succeeds or fails -----

  /** The bodies on a chain start to run one inside the other: each is neither registered nor being
      imported nor syntactically wrong, and imports the next after others that succeed. */
  ghost predicate Entered(env: Env, registry: set<Code>, flags: set<Uuid>, p: seq<Uuid>)
    decreases |p|
  {
    |p| > 1 ==>
      && p[0] in env.modules && p[0] !in flags && env.modules[p[0]] !in registry && !env.modules[p[0]].outcome.SyntaxError?
      && (exists k: nat :: ImportAt(env, registry, flags + {p[0]}, env.modules[p[0]].imports, k, p[1]))
      && Entered(env, registry, flags + {p[0]}, p[1..])
  }

  /** The k-th import leads to `v`, and those before it succeed. */
  ghost predicate ImportAt(env: Env, registry: set<Code>, flags: set<Uuid>, imports: seq<Uuid>, k: nat, v: Uuid) {
    && k < |imports| && env.Resolves(imports[k]) && env.revisions[imports[k]] == v
    && AllImportable(env, registry, flags, imports[..k])
  }

  ghost function Before(p: seq<Uuid>): set<Uuid>
    requires p != []
  {
    set i | 0 <= i < |p| - 1 :: p[i]
  }

  /** `c` is the code of an importable module at the end of a chain of bodies that start to run. */
  ghost predicate Completed(env: Env, registry: set<Code>, flags: set<Uuid>, u: Uuid, c: Code) {
    exists p :: CompletedBy(env, registry, flags, u, c, p)
  }

  ghost predicate CompletedBy(env: Env, registry: set<Code>, flags: set<Uuid>, u: Uuid, c: Code, p: seq<Uuid>) {
    && p != [] && p[0] == u && Entered(env, registry, flags, p) && EndsWith(env, p, c)
    && Importable(env, registry, flags + Before(p), p[|p| - 1])
  }

  ghost predicate CompletedFrom(env: Env, registry: set<Code>, flags: set<Uuid>, imports: seq<Uuid>, c: Code) {
    exists k: nat, v :: ImportAt(env, registry, flags, imports, k, v) && Completed(env, registry, flags, v, c)
  }

  lemma CompletedCons(env: Env, registry: set<Code>, flags: set<Uuid>, u: Uuid, c: Code)
    requires u in env.modules && u !in flags && env.modules[u] !in registry && !env.modules[u].outcome.SyntaxError?
    ensures CompletedFrom(env, registry, flags + {u}, env.modules[u].imports, c) ==> Completed(env, registry, flags, u, c)
    ensures Completed(env, registry, flags, u, c) ==>
      CompletedFrom(env, registry, flags + {u}, env.modules[u].imports, c) || (c == env.modules[u] && Importable(env, registry, flags, u))
  {
    var imports := env.modules[u].imports;
    if CompletedFrom(env, registry, flags + {u}, imports, c) {
      var k: nat, v :| ImportAt(env, registry, flags + {u}, imports, k, v) && Completed(env, registry, flags + {u}, v, c);
      var p :| CompletedBy(env, registry, flags + {u}, v, c, p);
      var q := [u] + p;
      assert q[1..] == p;
      BeforeCons(u, p);
      assert flags + {u} + Before(p) == flags + Before(q);
      assert CompletedBy(env, registry, flags, u, c, q);
    }
    if p :| CompletedBy(env, registry, flags, u, c, p) {
      if |p| == 1 {
        assert flags + Before(p) == flags;
      } else {
        assert p == [u] + p[1..];
        BeforeCons(u, p[1..]);
        assert flags + {u} + Before(p[1..]) == flags + Before(p);
        var k: nat :| ImportAt(env, registry, flags + {u}, imports, k, p[1]);
        assert CompletedBy(env, registry, flags + {u}, p[1], c, p[1..]);
      }
    }
  }

  lemma BeforeCons(u: Uuid, p: seq<Uuid>)
    requires p != []
    ensures Before([u] + p) == {u} + Before(p)
  {
    var q := [u] + p;
    forall x | x in {u} + Before(p) ensures x in Before(q) {
      if x == u {
        assert q[0] == u;
      } else {
        var i :| 0 <= i < |p| - 1 && p[i] == x;
        assert q[i + 1] == x;
      }
    }
    forall x | x in Before(q) ensures x in {u} + Before(p) {
      var i :| 0 <= i < |q| - 1 && q[i] == x;
      assert i > 0 ==> p[i - 1] == x;
    }
  }

  /** More flags on modules that are not registered change nothing about what was registered since. */
  lemma ExtendsMoreFlags(env: Env, registry: set<Code>, later: set<Code>, flags: set<Uuid>, u: Uuid)
    requires Extends(env, registry, later, flags) && Closed(env, registry, later)
    requires u in env.modules && env.modules[u] !in later
    ensures Extends(env, registry, later, flags + {u})
  {
    forall c, t | c in later && c !in registry && t in c.imports
      ensures env.Resolves(t) && Importable(env, registry, flags + {u}, env.revisions[t])
    {
      assert AllImportable(env, registry, flags, c.imports);
      var v := env.revisions[t];
      forall p | ChainFrom(env, registry, v, p) ensures GoodChain(env, registry, flags + {u}, p) {
        ChainRegistered(env, registry, later, v, p);
        assert GoodChain(env, registry, flags, p);
      }
    }
  }

  /** A chain of bodies that start to run ends in the larger registry, or starts to run there too. */
  lemma {:induction false} CompletedLater(env: Env, registry: set<Code>, later: set<Code>, flags: set<Uuid>, u: Uuid, c: Code)
    requires Extends(env, registry, later, flags) && Closed(env, registry, later)
    ensures Completed(env, registry, flags, u, c) ==> c in later || Completed(env, later, flags, u, c)
    ensures Completed(env, later, flags, u, c) ==> Completed(env, registry, flags, u, c)
  {
    if p :| CompletedBy(env, registry, flags, u, c, p) {
      ChainForward(env, registry, later, flags, u, c, p);
    }
    if p :| CompletedBy(env, later, flags, u, c, p) {
      ChainBack(env, registry, later, flags, u, c, p);
    }
  }

  lemma ImportAtTransfer(env: Env, registry: set<Code>, later: set<Code>, flags: set<Uuid>, imports: seq<Uuid>, k: nat, v: Uuid)
    requires Extends(env, registry, later, flags)
    ensures ImportAt(env, registry, flags, imports, k, v) <==> ImportAt(env, later, flags, imports, k, v)
  {
    if k < |imports| {
      AllTransfer(env, registry, later, flags, imports[..k]);
    }
  }

  lemma {:induction false} ChainForward(env: Env, registry: set<Code>, later: set<Code>, flags: set<Uuid>, u: Uuid, c: Code, p: seq<Uuid>)
    requires Extends(env, registry, later, flags) && Closed(env, registry, later) && CompletedBy(env, registry, flags, u, c, p)
    ensures c in later || CompletedBy(env, later, flags, u, c, p)
    decreases |p|
  {
    if |p| == 1 {
      assert flags + Before(p) == flags;
      ImportableTransfer(env, registry, later, flags, u);
    } else {
      assert p == [u] + p[1..];
      BeforeCons(u, p[1..]);
      assert flags + {u} + Before(p[1..]) == flags + Before(p);
      assert CompletedBy(env, registry, flags + {u}, p[1], c, p[1..]);
      var imports := env.modules[u].imports;
      var k: nat :| ImportAt(env, registry, flags + {u}, imports, k, p[1]);
      if env.modules[u] in later {
        assert imports[k] in imports;
        EnteredChain(env, registry, flags + {u}, p[1..]);
        ChainRegistered(env, registry, later, p[1], p[1..]);
      } else {
        ExtendsMoreFlags(env, registry, later, flags, u);
        ImportAtTransfer(env, registry, later, flags + {u}, imports, k, p[1]);
        ChainForward(env, registry, later, flags + {u}, p[1], c, p[1..]);
      }
    }
  }

  lemma {:induction false} ChainBack(env: Env, registry: set<Code>, later: set<Code>, flags: set<Uuid>, u: Uuid, c: Code, p: seq<Uuid>)
    requires Extends(env, registry, later, flags) && Closed(env, registry, later) && CompletedBy(env, later, flags, u, c, p)
    ensures CompletedBy(env, registry, flags, u, c, p)
    decreases |p|
  {
    if |p| == 1 {
      assert flags + Before(p) == flags;
      ImportableTransfer(env, registry, later, flags, u);
    } else {
      assert p == [u] + p[1..];
      BeforeCons(u, p[1..]);
      assert flags + {u} + Before(p[1..]) == flags + Before(p);
      assert CompletedBy(env, later, flags + {u}, p[1], c, p[1..]);
      var k: nat :| ImportAt(env, later, flags + {u}, env.modules[u].imports, k, p[1]);
      ExtendsMoreFlags(env, registry, later, flags, u);
      ImportAtTransfer(env, registry, later, flags + {u}, env.modules[u].imports, k, p[1]);
      ChainBack(env, registry, later, flags + {u}, p[1], c, p[1..]);
    }
  }

  lemma {:induction false} EnteredChain(env: Env, registry: set<Code>, flags: set<Uuid>, p: seq<Uuid>)
    requires p != [] && Entered(env, registry, flags, p)
    ensures ChainFrom(env, registry, p[0], p)
    decreases |p|
  {
    if |p| > 1 {
      EnteredChain(env, registry, flags + {p[0]}, p[1..]);
      var k: nat :| ImportAt(env, registry, flags + {p[0]}, env.modules[p[0]].imports, k, p[1]);
      assert env.modules[p[0]].imports[k] in env.modules[p[0]].imports;
      assert Edge(env, registry, p[0], p[1]);
      ChainJoin(env, registry, p[0], p[..1], p[1..]);
      assert p[..1] + p[1..] == p;
    }
  }

  /** Whatever the result, an import registers exactly the modules that completed on the way: importable
      ones at the end of chains of bodies that started to run. */
  lemma {:induction false} RunModuleRegisters(u: Uuid, env: Env, st: State, c: Code)
    requires u in env.modules
    ensures c in RunModule(u, env, st).0.registry <==> c in st.registry || Completed(env, st.registry, st.flags, u, c)
    decreases env.modules.Keys - st.flags, 0, 0
  {
    var code := env.modules[u];
    RunModuleExact(u, env, st);
    if u !in st.flags && code !in st.registry && !code.outcome.SyntaxError? {
      var marked := st.(flags := st.flags + {u});
      assert u in env.modules.Keys - st.flags;
      RunAllRegisters(code.imports, env, marked, c);
      CompletedCons(env, st.registry, st.flags, u, c);
      if Importable(env, st.registry, st.flags, u) {
        CompletedSelf(env, st.registry, st.flags, u);
      }
    } else {
      forall p | CompletedBy(env, st.registry, st.flags, u, c, p) ensures c in st.registry {
        NotEntered(env, st.registry, st.flags, u, c, p);
      }
    }
  }

  /** Imports that succeed before a failing one, or before the body raises, stay registered. */
  lemma ImportsBeforeFailureStay(u: Uuid, env: Env, st: State, j: nat)
    requires u in env.modules && u !in st.flags && env.modules[u] !in st.registry && !env.modules[u].outcome.SyntaxError?
    requires j < |env.modules[u].imports| && AllImportable(env, st.registry, st.flags + {u}, env.modules[u].imports[..j + 1])
    ensures env.Resolves(env.modules[u].imports[j])
    ensures env.modules[env.revisions[env.modules[u].imports[j]]] in RunModule(u, env, st).0.registry
  {
    assert env.modules[u].imports[j] == env.modules[u].imports[..j + 1][j];
    var imports, flags := env.modules[u].imports, st.flags + {u};
    assert imports[j] in imports[..j + 1];
    var v := env.revisions[imports[j]];
    assert forall t :: t in imports[..j] ==> t in imports[..j + 1];
    assert ImportAt(env, st.registry, flags, imports, j, v);
    CompletedSelf(env, st.registry, flags, v);
    CompletedCons(env, st.registry, st.flags, u, env.modules[v]);
    RunModuleRegisters(u, env, st, env.modules[v]);
  }

  lemma CompletedSelf(env: Env, registry: set<Code>, flags: set<Uuid>, u: Uuid)
    requires u in env.modules && Importable(env, registry, flags, u)
    ensures Completed(env, registry, flags, u, env.modules[u])
  {
    assert flags + Before([u]) == flags;
    assert CompletedBy(env, registry, flags, u, env.modules[u], [u]);
  }

  lemma NotEntered(env: Env, registry: set<Code>, flags: set<Uuid>, u: Uuid, c: Code, p: seq<Uuid>)
    requires u in env.modules && CompletedBy(env, registry, flags, u, c, p)
    requires u in flags || env.modules[u] in registry || env.modules[u].outcome.SyntaxError?
    ensures c in registry
  {
    assert |p| == 1 && flags + Before(p) == flags;
    assert ChainFrom(env, registry, u, [u]);
    assert GoodChain(env, registry, flags, [u]);
    assert [u][0] == u;
  }

  lemma {:induction false} RunAllRegisters(imports: seq<Uuid>, env: Env, st: State, c: Code)
    ensures c in RunAll(imports, env, st).0.registry <==> c in st.registry || CompletedFrom(env, st.registry, st.flags, imports, c)
    decreases env.modules.Keys - st.flags, 2, |imports|
  {
    if imports != [] {
      var t, rest := imports[0], imports[1..];
      var (st1, r) := RunComp(t, env, st);
      FirstImport(env, st.registry, st.flags, imports, c);
      if env.Resolves(t) {
        RunModuleRegisters(env.revisions[t], env, st, c);
        RunModuleExact(env.revisions[t], env, st);
        RunModuleCloses(env.revisions[t], env, st, st.registry);
      }
      if r.Ok? {
        RunAllRegisters(rest, env, st1, c);
        FromLater(env, st.registry, st1.registry, st.flags, rest, c);
      }
    }
  }

  /** Either the first import completes it, or it succeeds and one of the others does. */
  lemma FirstImport(env: Env, registry: set<Code>, flags: set<Uuid>, imports: seq<Uuid>, c: Code)
    requires imports != []
    ensures CompletedFrom(env, registry, flags, imports, c) <==>
      || (env.Resolves(imports[0]) && Completed(env, registry, flags, env.revisions[imports[0]], c))
      || (env.Resolves(imports[0]) && Importable(env, registry, flags, env.revisions[imports[0]]) && CompletedFrom(env, registry, flags, imports[1..], c))
  {
    hide Completed, Importable;
    var t, rest := imports[0], imports[1..];
    if k: nat, v :| ImportAt(env, registry, flags, imports, k, v) && Completed(env, registry, flags, v, c) {
      if k > 0 {
        assert t in imports[..k];
        assert rest[..k - 1] == imports[..k][1..];
        assert forall x :: x in rest[..k - 1] ==> x in imports[..k];
        assert ImportAt(env, registry, flags, rest, k - 1, v);
      }
    }
    if env.Resolves(t) && Completed(env, registry, flags, env.revisions[t], c) {
      assert ImportAt(env, registry, flags, imports, 0, env.revisions[t]);
    }
    if env.Resolves(t) && Importable(env, registry, flags, env.revisions[t]) && CompletedFrom(env, registry, flags, rest, c) {
      var k: nat, v :| ImportAt(env, registry, flags, rest, k, v) && Completed(env, registry, flags, v, c);
      assert imports[..k + 1] == [t] + rest[..k];
      assert ImportAt(env, registry, flags, imports, k + 1, v);
    }
  }

  lemma FromLater(env: Env, registry: set<Code>, later: set<Code>, flags: set<Uuid>, imports: seq<Uuid>, c: Code)
    requires Extends(env, registry, later, flags) && Closed(env, registry, later)
    ensures CompletedFrom(env, registry, flags, imports, c) ==> c in later || CompletedFrom(env, later, flags, imports, c)
    ensures CompletedFrom(env, later, flags, imports, c) ==> CompletedFrom(env, registry, flags, imports, c)
  {
    forall k: nat, v ensures ImportAt(env, registry, flags, imports, k, v) <==> ImportAt(env, later, flags, imports, k, v) {
      ImportAtTransfer(env, registry, later, flags, imports, k, v);
    }
    forall v
      ensures Completed(env, registry, flags, v, c) ==> c in later || Completed(env, later, flags, v, c)
      ensures Completed(env, later, flags, v, c) ==> Completed(env, registry, flags, v, c)
    {
      CompletedLater(env, registry, later, flags, v, c);
    }
  }

  // ----- runs of several imports in one execution context -----

  /** Flags of failed imports stay set: they are not reset when an exception passes. */
  lemma FailureLeavesFlag(u: Uuid, env: Env, st: State)
    requires u in env.modules && !RunModule(u, env, st).1.Ok?
    ensures u in RunModule(u, env, st).0.flags
    ensures RunModule(u, env, RunModule(u, env, st).0).1.CycleError?
  {
  }

  /** The last module of the chain fails by itself, or at an import that is unknown or being imported. */
  ghost predicate FailsAtEnd(env: Env, flags: set<Uuid>, p: seq<Uuid>) {
    p != [] && p[|p| - 1] in env.modules
    && var code := env.modules[p[|p| - 1]];
       !code.outcome.Completes? || exists t :: t in code.imports && (!env.Resolves(t) || env.revisions[t] in flags || env.revisions[t] in p)
  }

  /** From u to where the failure begins, and these are the modules whose flags stay. */
  ghost predicate FailurePath(env: Env, st: State, u: Uuid, after: set<Uuid>, p: seq<Uuid>) {
    && ChainFrom(env, st.registry, u, p) && FailsAtEnd(env, st.flags, p)
    && forall x :: x in after <==> x in st.flags || x in p
  }

  /** A cycle error is about the module that was asked for; what fails below it is reported as a failed
      import. The flags that a failure leaves are those of the modules on one chain of imports that ends
      where the failure begins. */
  lemma FailureExact(u: Uuid, env: Env, st: State)
    requires u in env.modules && !RunModule(u, env, st).1.Ok?
    ensures RunModule(u, env, st).1 == if u in st.flags then CycleError else CodeImportError
    ensures u !in st.flags ==> exists p :: FailurePath(env, st, u, RunModule(u, env, st).0.flags, p)
  {
    if u !in st.flags {
      var p := PathOfFailure(u, env, st);
    }
  }

  /** A revision that is unknown, or whose module is, fails as an import too. */
  lemma UnknownFails(t: Uuid, env: Env, st: State)
    ensures !env.Resolves(t) ==> RunComp(t, env, st) == (st, CodeImportError)
    ensures RunComp(t, env, st).1.CycleError? <==> env.Resolves(t) && env.revisions[t] in st.flags
    ensures !RunComp(t, env, st).1.NotFoundError?
  {
    if env.Resolves(t) && !RunComp(t, env, st).1.Ok? {
      FailureExact(env.revisions[t], env, st);
    }
  }

  /** Asking for a module that must be there runs nothing: it is found exactly if it is registered and not
      flagged, a flagged one is reported as a cycle, and one that is not found is flagged from then on. */
  lemma RequestExact(u: Uuid, env: Env, st: State)
    requires u in env.modules
    ensures var (after, r) := RunIfFound(u, env, st);
      && after.registry == st.registry && after.completed == st.completed
      && (r.Ok? <==> u !in st.flags && env.modules[u] in st.registry)
      && (r.CycleError? <==> u in st.flags)
      && after.flags == if r.NotFoundError? then st.flags + {u} else st.flags
  {
  }

  lemma {:induction false} FirstFailure(imports: seq<Uuid>, env: Env, st: State) returns (t: Uuid, st': State)
    requires !RunAll(imports, env, st).1.Ok?
    ensures t in imports && st'.flags == st.flags && st.registry <= st'.registry
    ensures !RunComp(t, env, st').1.Ok? && RunAll(imports, env, st) == RunComp(t, env, st')
    decreases |imports|
  {
    var (st1, r) := RunComp(imports[0], env, st);
    if r.Ok? {
      t, st' := FirstFailure(imports[1..], env, st1);
    } else {
      t, st' := imports[0], st;
    }
  }

  lemma {:induction false} PathOfFailure(u: Uuid, env: Env, st: State) returns (p: seq<Uuid>)
    requires u in env.modules && u !in st.flags && !RunModule(u, env, st).1.Ok?
    ensures FailurePath(env, st, u, RunModule(u, env, st).0.flags, p)
    decreases env.modules.Keys - st.flags
  {
    var code, marked := env.modules[u], st.(flags := st.flags + {u});
    assert u in env.modules.Keys - st.flags;
    p := [u];
    if !code.outcome.SyntaxError? && !RunAll(code.imports, env, marked).1.Ok? {
      var t, st' := FirstFailure(code.imports, env, marked);
      if env.Resolves(t) && env.revisions[t] !in marked.flags {
        var v := env.revisions[t];
        var q := PathOfFailure(v, env, st');
        p := PathExtended(u, v, env, st, st', RunModule(v, env, st').0.flags, q);
      }
    }
  }

  lemma PathExtended(u: Uuid, v: Uuid, env: Env, st: State, st': State, after: set<Uuid>, q: seq<Uuid>) returns (p: seq<Uuid>)
    requires FailurePath(env, st', v, after, q) && Edge(env, st.registry, u, v)
    requires st'.flags == st.flags + {u} && st.registry <= st'.registry
    ensures FailurePath(env, st, u, after, p)
  {
    ChainWeaken(env, st.registry, st'.registry, v, q);
    p := [u] + q;
    ChainJoin(env, st.registry, u, [u], q);
    assert p[|p| - 1] == q[|q| - 1];
  }

  ghost predicate Reaches(env: Env, registry: set<Code>, z: Uuid, u: Uuid) {
    exists p :: ChainFrom(env, registry, z, p) && p[|p| - 1] == u
  }

  /** Every flagged module is hopeless already, given that the modules of `base` cannot be imported, or is
      an importer of `u`. */
  ghost predicate FlagsExplained(env: Env, registry: set<Code>, base: set<Uuid>, flags: set<Uuid>, u: Uuid) {
    forall z :: z in flags ==> !Importable(env, registry, base, z) || Reaches(env, registry, z, u)
  }

  /** A flag that stays set belongs to a module that cannot be imported in a fresh context either, nor
      while the modules of `base` are flagged. */
  lemma {:induction false} StaleFlagsAreHopeless(u: Uuid, env: Env, st: State, initial: set<Code>, base: set<Uuid>)
    requires u in env.modules && initial <= st.registry && base <= st.flags && FlagsExplained(env, initial, base, st.flags, u)
    ensures forall w :: w in RunModule(u, env, st).0.flags && w !in st.flags ==> !Importable(env, initial, base, w)
    decreases env.modules.Keys - st.flags, 0, 0
  {
    var code := env.modules[u];
    if u !in st.flags && code !in st.registry {
      var marked := st.(flags := st.flags + {u});
      if !RunModule(u, env, st).1.Ok? {
        FailureIsHopeless(u, env, st, initial, base);
      }
      if !code.outcome.SyntaxError? {
        assert u in env.modules.Keys - st.flags;
        assert ChainFrom(env, initial, u, [u]);
        assert Reaches(env, initial, u, u);
        StaleFlagsOfImports(u, code.imports, env, marked, initial, base);
      }
    }
  }

  lemma {:induction false} StaleFlagsOfImports(u: Uuid, imports: seq<Uuid>, env: Env, st: State, initial: set<Code>, base: set<Uuid>)
    requires u in env.modules && env.modules[u] !in initial && initial <= st.registry && base <= st.flags
    requires forall t :: t in imports ==> t in env.modules[u].imports
    requires FlagsExplained(env, initial, base, st.flags, u)
    ensures forall w :: w in RunAll(imports, env, st).0.flags && w !in st.flags ==> !Importable(env, initial, base, w)
    decreases env.modules.Keys - st.flags, 2, |imports|
  {
    if imports != [] {
      var t := imports[0];
      var (st1, r) := RunComp(t, env, st);
      if env.Resolves(t) {
        var v := env.revisions[t];
        assert Edge(env, initial, u, v);
        forall z | z in st.flags && Importable(env, initial, base, z) ensures Reaches(env, initial, z, v) {
          var p :| ChainFrom(env, initial, z, p) && p[|p| - 1] == u;
          ChainJoin(env, initial, z, p, [v]);
          assert (p + [v])[|p|] == v;
        }
        StaleFlagsAreHopeless(v, env, st, initial, base);
      }
      if r.Ok? {
        StaleFlagsOfImports(u, imports[1..], env, st1, initial, base);
      }
    }
  }

  lemma FailureIsHopeless(u: Uuid, env: Env, st: State, initial: set<Code>, base: set<Uuid>)
    requires u in env.modules && u !in st.flags && initial <= st.registry && base <= st.flags
    requires FlagsExplained(env, initial, base, st.flags, u) && !RunModule(u, env, st).1.Ok?
    ensures !Importable(env, initial, base, u)
  {
    RunModuleExact(u, env, st);
    var p :| ChainFrom(env, st.registry, u, p) && !GoodChain(env, st.registry, st.flags, p);
    ChainWeaken(env, initial, st.registry, u, p);
    if Distinct(p) && NodeOk(env, st.registry, p[|p| - 1]) {
      var i :| 0 <= i < |p| && p[i] in st.flags;
      var front := p[0..i + 1];
      ChainSlice(env, initial, u, p, 0, i + 1);
      if Importable(env, initial, base, u) {
        ImportableSuffix(env, initial, base, u, front);
        var q :| ChainFrom(env, initial, p[i], q) && q[|q| - 1] == u;
        ReturnCloses(env, initial, base, u, front, q);
      }
    } else {
      assert !GoodChain(env, initial, base, p);
    }
  }

  lemma ReturnCloses(env: Env, registry: set<Code>, base: set<Uuid>, u: Uuid, p: seq<Uuid>, q: seq<Uuid>)
    requires ChainFrom(env, registry, u, p) && ChainFrom(env, registry, p[|p| - 1], q)
    requires q[|q| - 1] == u && p[|p| - 1] != u
    ensures !Importable(env, registry, base, u)
  {
    ChainSlice(env, registry, p[|p| - 1], q, 1, |q|);
    assert Edge(env, registry, q[0], q[1]);
    var loop := p + q[1..|q|];
    ChainJoin(env, registry, u, p, q[1..|q|]);
    assert loop[0] == loop[|loop| - 1] && !GoodChain(env, registry, base, loop);
  }

  // ----- sessions -----

  /** What is asked of one context: import a revision, or a module only if it is registered already. */
  datatype Ask = Import(t: Uuid) | Find(u: Uuid)

  ghost predicate Askable(asks: seq<Ask>, env: Env) {
    forall a :: a in asks && a.Find? ==> a.u in env.modules
  }

  function RunAsk(a: Ask, env: Env, st: State): (State, Result)
    requires a.Find? ==> a.u in env.modules
  {
    match a
    case Import(t) => RunComp(t, env, st)
    case Find(u) => RunIfFound(u, env, st)
  }

  /** One after the other, going on after failures. */
  function Session(asks: seq<Ask>, env: Env, st: State): (out: (State, seq<Result>))
    requires Askable(asks, env)
    ensures |out.1| == |asks|
  {
    if asks == [] then (st, [])
    else
      var (before, rs) := Session(asks[..|asks| - 1], env, st);
      var (after, r) := RunAsk(asks[|asks| - 1], env, before);
      (after, rs + [r])
  }

  lemma {:induction false} SessionPrefix(asks: seq<Ask>, env: Env, st: State, i: nat)
    requires Askable(asks, env) && i <= |asks|
    ensures Session(asks[..i], env, st).1 == Session(asks, env, st).1[..i]
    decreases |asks|
  {
    if i < |asks| {
      assert asks[..|asks| - 1][..i] == asks[..i];
      SessionPrefix(asks[..|asks| - 1], env, st, i);
    } else {
      assert asks[..i] == asks;
    }
  }

  /** The modules that were asked for and not found. */
  ghost function NotFound(asks: seq<Ask>, rs: seq<Result>): set<Uuid>
    requires |asks| == |rs|
  {
    set j | 0 <= j < |asks| && asks[j].Find? && rs[j].NotFoundError? :: asks[j].u
  }

  /** Flags stay set on modules that were not found, and beyond these only on modules that cannot be
      imported any more anyway. */
  ghost predicate Explained(env: Env, initial: set<Code>, blocked: set<Uuid>, st: State) {
    && Extends(env, initial, st.registry, blocked) && Closed(env, initial, st.registry) && blocked <= st.flags
    && forall z :: z in st.flags ==> !Importable(env, initial, blocked, z)
  }

  lemma NotFoundExplained(u: Uuid, env: Env, st: State, initial: set<Code>, blocked: set<Uuid>)
    requires u in env.modules && env.modules[u] !in st.registry && Explained(env, initial, blocked, st)
    ensures Explained(env, initial, blocked + {u}, st.(flags := st.flags + {u}))
  {
    var more := blocked + {u};
    forall c, t | c in st.registry && c !in initial && t in c.imports
      ensures env.Resolves(t) && Importable(env, initial, more, env.revisions[t])
    {
      assert AllImportable(env, initial, blocked, c.imports);
      var v := env.revisions[t];
      forall p | ChainFrom(env, initial, v, p) ensures GoodChain(env, initial, more, p) {
        ChainRegistered(env, initial, st.registry, v, p);
        assert GoodChain(env, initial, blocked, p);
      }
    }
    forall z | z in st.flags + {u} ensures !Importable(env, initial, more, z) {
      if z in st.flags && Importable(env, initial, more, z) {
        ImportableFewerFlags(env, initial, more, blocked, z);
      }
      FlaggedNotImportable(env, initial, more, u);
    }
  }

  lemma FlaggedNotImportable(env: Env, registry: set<Code>, flags: set<Uuid>, u: Uuid)
    requires u in flags
    ensures !Importable(env, registry, flags, u)
  {
    assert ChainFrom(env, registry, u, [u]) && [u][0] in flags;
  }

  lemma ImportExplained(u: Uuid, env: Env, st: State, initial: set<Code>, blocked: set<Uuid>)
    requires u in env.modules && Explained(env, initial, blocked, st)
    ensures RunModule(u, env, st).1.Ok? <==> Importable(env, initial, blocked, u)
    ensures Explained(env, initial, blocked, RunModule(u, env, st).0)
  {
    var st' := RunModule(u, env, st).0;
    RunModuleExact(u, env, st);
    RunModuleCloses(u, env, st, initial);
    StaleFlagsAreHopeless(u, env, st, initial, blocked);
    StaleFlagsHarmless(u, env, st, initial, blocked);
    ExtendsFewerFlags(env, st.registry, st'.registry, st.flags, blocked);
    forall c | c in st'.registry && c !in initial
      ensures c.outcome.Completes? && AllImportable(env, initial, blocked, c.imports)
    {
      if c !in st.registry {
        AllTransfer(env, initial, st.registry, blocked, c.imports);
      }
    }
  }

  lemma StaleFlagsHarmless(u: Uuid, env: Env, st: State, initial: set<Code>, blocked: set<Uuid>)
    requires Explained(env, initial, blocked, st)
    ensures Importable(env, st.registry, st.flags, u) <==> Importable(env, initial, blocked, u)
  {
    ImportableTransfer(env, initial, st.registry, blocked, u);
    if Importable(env, st.registry, st.flags, u) {
      ImportableFewerFlags(env, st.registry, st.flags, blocked, u);
    }
    if Importable(env, initial, blocked, u) {
      forall p | ChainFrom(env, st.registry, u, p) ensures GoodChain(env, st.registry, st.flags, p) {
        assert GoodChain(env, st.registry, blocked, p);
        ChainWeaken(env, initial, st.registry, u, p);
        forall i | 0 <= i < |p| ensures p[i] !in st.flags {
          ChainSlice(env, initial, u, p, 0, i + 1);
          ImportableSuffix(env, initial, blocked, u, p[0..i + 1]);
        }
      }
    }
  }

  /** A registered module that is not blocked carries no flag. */
  lemma RegisteredUnflagged(u: Uuid, env: Env, st: State, initial: set<Code>, blocked: set<Uuid>)
    requires u in env.modules && env.modules[u] in st.registry && u !in blocked && Explained(env, initial, blocked, st)
    ensures u !in st.flags
  {
    var code := env.modules[u];
    forall p | ChainFrom(env, initial, u, p) ensures GoodChain(env, initial, blocked, p) {
      if |p| > 1 {
        assert Edge(env, initial, p[0], p[1]);
        var t :| t in code.imports && env.Resolves(t) && env.revisions[t] == p[1];
        assert AllImportable(env, initial, blocked, code.imports);
        ChainSlice(env, initial, u, p, 1, |p|);
        var q := p[1..|p|];
        assert GoodChain(env, initial, blocked, q);
        forall i | 0 <= i < |q| ensures q[i] != u {
          if q[i] == u {
            ChainSlice(env, initial, p[1], q, 0, i + 1);
            LoopBack(env, initial, blocked, code, t, q[0..i + 1]);
          }
        }
        assert forall i :: 0 < i < |p| ==> p[i] == q[i - 1];
      }
    }
  }

  lemma {:induction false} SessionExplained(asks: seq<Ask>, env: Env, initial: set<Code>)
    requires Askable(asks, env)
    ensures var (st, rs) := Session(asks, env, State({}, initial, []));
      Explained(env, initial, NotFound(asks, rs), st)
  {
    hide Explained;
    if asks == [] {
      assert Explained(env, initial, {}, State({}, initial, [])) by { FreshExplained(env, initial); }
      assert NotFound([], []) == {};
    } else {
      var init, a := asks[..|asks| - 1], asks[|asks| - 1];
      SessionExplained(init, env, initial);
      var (st, rs) := Session(init, env, State({}, initial, []));
      var (st', r) := RunAsk(a, env, st);
      NotFoundStep(init, rs, a, r);
      assert asks == init + [a];
      var blocked := NotFound(init, rs);
      assert blocked + {} == blocked;
      match a {
        case Import(t) =>
          if env.Resolves(t) {
            ImportExplained(env.revisions[t], env, st, initial, blocked);
          }
        case Find(u) =>
          if r.NotFoundError? {
            NotFoundExplained(u, env, st, initial, blocked);
          }
      }
    }
  }

  lemma FreshExplained(env: Env, initial: set<Code>)
    ensures Explained(env, initial, {}, State({}, initial, []))
  {
  }

  lemma NotFoundStep(asks: seq<Ask>, rs: seq<Result>, a: Ask, r: Result)
    requires |asks| == |rs|
    ensures NotFound(asks + [a], rs + [r]) == NotFound(asks, rs) + if a.Find? && r.NotFoundError? then {a.u} else {}
  {
    var more := NotFound(asks + [a], rs + [r]);
    forall u | u in NotFound(asks, rs) ensures u in more {
      var j :| 0 <= j < |asks| && asks[j].Find? && rs[j].NotFoundError? && asks[j].u == u;
      assert (asks + [a])[j] == asks[j] && (rs + [r])[j] == rs[j];
    }
    assert (asks + [a])[|asks|] == a && (rs + [r])[|rs|] == r;
  }

  /** In a session of imports and requests for registered modules only, an import succeeds exactly if it
      would succeed in a fresh context in which the modules that were not found before are blocked; and a
      module is found exactly if it is registered and was not asked for in vain before. Flags of failed
      imports never turn a possible import into a failure. */
  lemma SessionExact(asks: seq<Ask>, env: Env, initial: set<Code>, i: nat)
    requires Askable(asks, env) && i < |asks|
    ensures var rs := Session(asks, env, State({}, initial, [])).1;
      var blocked := NotFound(asks[..i], rs[..i]);
      && (asks[i].Import? ==>
           (rs[i].Ok? <==> env.Resolves(asks[i].t) && Importable(env, initial, blocked, env.revisions[asks[i].t])))
      && (asks[i].Find? ==>
           (rs[i].Ok? <==> asks[i].u !in blocked && env.modules[asks[i].u] in Session(asks[..i], env, State({}, initial, [])).0.registry))
  {
    hide Explained;
    var start := State({}, initial, []);
    var (st, before) := Session(asks[..i], env, start);
    SessionPrefix(asks, env, start, i);
    SessionPrefix(asks, env, start, i + 1);
    assert asks[..i + 1][..i] == asks[..i];
    SessionExplained(asks[..i], env, initial);
    var blocked := NotFound(asks[..i], before);
    match asks[i] {
      case Import(t) =>
        if env.Resolves(t) {
          ImportExplained(env.revisions[t], env, st, initial, blocked);
        }
      case Find(u) =>
        if u in blocked {
          BlockedFlagged(u, env, st, initial, blocked);
        } else if env.modules[u] in st.registry {
          RegisteredUnflagged(u, env, st, initial, blocked);
        }
    }
  }

  /** What is registered after a session: what was at first, and what completed in one of the imports. */
  lemma {:induction false} SessionRegisters(asks: seq<Ask>, env: Env, st: State, c: Code)
    requires Askable(asks, env)
    ensures c in Session(asks, env, st).0.registry <==>
      c in st.registry ||
      exists i :: 0 <= i < |asks| && asks[i].Import? && env.Resolves(asks[i].t) &&
        var before := Session(asks[..i], env, st).0; Completed(env, before.registry, before.flags, env.revisions[asks[i].t], c)
  {
    if asks != [] {
      var n := |asks| - 1;
      SessionRegisters(asks[..n], env, st, c);
      var before := Session(asks[..n], env, st).0;
      assert forall i :: 0 <= i < n ==> asks[..n][..i] == asks[..i] && asks[..n][i] == asks[i];
      if asks[n].Import? && env.Resolves(asks[n].t) {
        RunModuleRegisters(env.revisions[asks[n].t], env, before, c);
      }
    }
  }

  lemma BlockedFlagged(u: Uuid, env: Env, st: State, initial: set<Code>, blocked: set<Uuid>)
    requires Explained(env, initial, blocked, st) && u in blocked
    ensures u in st.flags
  {
  }

  /** Without requests for registered modules every import in a session has the result it would have in a
      fresh context, although flags of failed imports stay set. */
  lemma ImportsExact(asks: seq<Ask>, env: Env, initial: set<Code>, i: nat)
    requires i < |asks| && forall a :: a in asks ==> a.Import?
    ensures Session(asks, env, State({}, initial, [])).1[i].Ok? <==> RunComp(asks[i].t, env, State({}, initial, [])).1.Ok?
  {
    SessionExact(asks, env, initial, i);
    FreshImportExact(asks[i].t, env, initial);
    assert forall j :: 0 <= j < i ==> asks[..i][j] in asks;
    assert NotFound(asks[..i], Session(asks, env, State({}, initial, [])).1[..i]) == {};
  }

  /** The exception: a failed import with `raise_if_not_found` flags a module without running it, and
      from then on even an importable module is reported as a cycle in this context. */
  lemma NotFoundBlocksLaterImport(u: Uuid, env: Env, registry: set<Code>)
    requires u in env.modules && env.modules[u] !in registry && Importable(env, registry, {}, u)
    ensures var st := State({}, registry, []);
      && RunModule(u, env, st).1.Ok?
      && RunIfFound(u, env, st).1.NotFoundError?
      && RunModule(u, env, RunIfFound(u, env, st).0).1.CycleError?
  {
    RunModuleExact(u, env, State({}, registry, []));
  }
}
