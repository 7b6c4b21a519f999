/** Module-level variables of component code: looking one up in the syntax tree, and storing a value in
    one by transforming the tree. */
module ModuleVariables {
  import opened OrderedDict
  import opened Sequences

  type Name = int   // identifiers are only compared
  type Value = int  // values that can be written as literals

  datatype Expr = Literal(value: Value) | Expression(text: int)

  datatype Target = Name(id: Name) | OtherTarget(text: int)

  datatype Small = Assign(targets: seq<Target>, value: Expr) | OtherSmall(text: int)

  /** A line holds small statements, a compound statement a body. */
  datatype Statement = Line(smalls: seq<Small>) | Block(header: int, body: seq<Statement>)

  /** Assignments to nothing but the variable. */
  predicate Assigns(s: Small, x: Name) {
    s.Assign? && s.targets == [Name(x)]
  }

  function Assignment(x: Name, v: Value): Small {
    Assign([Name(x)], Literal(v))
  }

  // ----- the statements of a module, whatever the lines they are on -----

  datatype Item = SmallItem(s: Small) | BlockItem(b: Statement)

  function SmallItems(smalls: seq<Small>): (items: seq<Item>)
    ensures |items| == |smalls| && forall i :: 0 <= i < |smalls| ==> items[i] == SmallItem(smalls[i])
  {
    seq(|smalls|, i requires 0 <= i < |smalls| => SmallItem(smalls[i]))
  }

  function ItemsOf(s: Statement): seq<Item> {
    if s.Line? then SmallItems(s.smalls) else [BlockItem(s)]
  }

  function Items(body: seq<Statement>): seq<Item> {
    if body == [] then [] else Items(body[..|body| - 1]) + ItemsOf(body[|body| - 1])
  }

  function IsOther(x: Name): Item -> bool {
    (i: Item) => i.SmallItem? ==> !Assigns(i.s, x)
  }

  // ----- looking up -----

  datatype Lookup = NotFound | Found(value: Value) | LiteralEvalError

  function Evaluate(e: Expr): Lookup {
    match e case Literal(v) => Found(v) case Expression(_) => LiteralEvalError
  }

  function LookupIn(items: seq<Item>, x: Name): Lookup {
    if items == [] then NotFound
    else if items[0].SmallItem? && Assigns(items[0].s, x) then Evaluate(items[0].s.value)
    else LookupIn(items[1..], x)
  }

  /** The b-th statement of line a assigns to the variable, and no statement before it does. */
  ghost predicate FirstAssignment(body: seq<Statement>, x: Name, a: nat, b: nat) {
    && AssignsAt(body, x, a, b)
    && (forall k, l :: AssignsAt(body, x, k, l) ==> a < k || (a == k && b <= l))
  }

  ghost predicate AssignsAt(body: seq<Statement>, x: Name, a: int, b: int) {
    0 <= a < |body| && LineAssigns(body[a], x, b)
  }

  ghost predicate LineAssigns(s: Statement, x: Name, b: int) {
    s.Line? && 0 <= b < |s.smalls| && s.smalls[b].Assign? && s.smalls[b].targets == [Name(x)]
  }

  lemma {:induction false} LookupNone(body: seq<Statement>, x: Name)
    ensures LookupIn(Items(body), x).NotFound? <==> forall a, b :: !AssignsAt(body, x, a, b)
  {
    if body != [] {
      var n := |body| - 1;
      LookupNone(body[..n], x);
      LookupAppend(Items(body[..n]), ItemsOf(body[n]), x);
      LookupLine(body[n], x);
      hide LineAssigns;
      assert forall a, b :: AssignsAt(body[..n], x, a, b) ==> AssignsAt(body, x, a, b);
      assert forall a, b :: AssignsAt(body, x, a, b) ==> AssignsAt(body[..n], x, a, b) || (a == n && LineAssigns(body[n], x, b));
      assert forall b :: LineAssigns(body[n], x, b) ==> AssignsAt(body, x, n, b);
    }
  }

  /** The first module-level assignment to nothing but the variable decides: its value if that is a literal,
      an error otherwise; assignments inside other statements do not count. */
  lemma LookupExact(body: seq<Statement>, x: Name)
    ensures LookupIn(Items(body), x).NotFound? <==> forall a, b :: !AssignsAt(body, x, a, b)
    ensures forall a: nat, b: nat :: FirstAssignment(body, x, a, b) ==>
      LookupIn(Items(body), x) == match body[a].smalls[b].value case Literal(v) => Found(v) case Expression(_) => LiteralEvalError
  {
    LookupNone(body, x);
    forall a: nat, b: nat | FirstAssignment(body, x, a, b)
      ensures LookupIn(Items(body), x) == match body[a].smalls[b].value case Literal(v) => Found(v) case Expression(_) => LiteralEvalError
    {
      LookupFirst(body, x, a, b);
    }
  }

  lemma LookupFirst(body: seq<Statement>, x: Name, a: nat, b: nat)
    requires FirstAssignment(body, x, a, b)
    ensures LookupIn(Items(body), x) == Evaluate(body[a].smalls[b].value)
  {
    ItemsPrefix(body, a);
    var before, here := Items(body[..a]), ItemsOf(body[a]);
    var items := Items(body);
    assert items == (before + here) + items[|before + here|..];
    LookupNone(body[..a], x);
    LookupLine(body[a], x);
    hide LookupIn, LineAssigns;
    assert forall k, l :: AssignsAt(body[..a], x, k, l) ==> AssignsAt(body, x, k, l);
    assert forall l :: LineAssigns(body[a], x, l) ==> AssignsAt(body, x, a, l);
    LookupAppend(before, here, x);
    LookupAppend(before + here, items[|before + here|..], x);
  }

  lemma {:induction false} LookupAppend(items: seq<Item>, more: seq<Item>, x: Name)
    ensures LookupIn(items + more, x) == if LookupIn(items, x).NotFound? then LookupIn(more, x) else LookupIn(items, x)
  {
    if items == [] {
      assert items + more == more;
    } else {
      LookupAppend(items[1..], more, x);
      assert (items + more)[1..] == items[1..] + more;
    }
  }

  /** The same for one line. */
  lemma LookupLine(s: Statement, x: Name)
    ensures LookupIn(ItemsOf(s), x).NotFound? <==> forall b :: !LineAssigns(s, x, b)
    ensures forall b :: LineAssigns(s, x, b) && (forall l :: LineAssigns(s, x, l) ==> b <= l) ==>
      LookupIn(ItemsOf(s), x) == Evaluate(s.smalls[b].value)
  {
    if s.Line? {
      LookupSmalls(s.smalls, x);
      assert forall b :: 0 <= b < |s.smalls| ==> (LineAssigns(s, x, b) <==> Assigns(s.smalls[b], x));
    } else {
      assert ItemsOf(s)[1..] == [];
    }
  }

  lemma {:induction false} LookupSmalls(smalls: seq<Small>, x: Name)
    ensures LookupIn(SmallItems(smalls), x).NotFound? <==> forall b :: 0 <= b < |smalls| ==> !Assigns(smalls[b], x)
    ensures forall b :: 0 <= b < |smalls| && Assigns(smalls[b], x) && (forall l :: 0 <= l < b ==> !Assigns(smalls[l], x)) ==>
      LookupIn(SmallItems(smalls), x) == Evaluate(smalls[b].value)
  {
    if smalls != [] {
      LookupSmalls(smalls[1..], x);
      assert SmallItems(smalls)[1..] == SmallItems(smalls[1..]);
      assert forall b :: 1 <= b < |smalls| ==> smalls[b] == smalls[1..][b - 1];
    }
  }

  /** The first module-level assignment to the variable counts. */
  method GetGlobalFromCode(body: seq<Statement>, x: Name) returns (r: Lookup)
    ensures r == LookupIn(Items(body), x)
  {
    hide LookupIn, Items;
    ghost var items := Items(body);
    ghost var before := 0;
    NoItems(items, x);
    assert body[..0] == [] && items[0..] == items;
    for i := 0 to |body|
      invariant before == |Items(body[..i])| <= |items| && LookupIn(items, x) == LookupIn(items[before..], x)
    {
      ItemsPrefix(body, i);
      assert items[before..before + |ItemsOf(body[i])|] == ItemsOf(body[i]);
      match body[i] {
        case Line(smalls) =>
          var found;
          found, r := FindInLine(smalls, x, items, before);
          if found {
            return;
          }
        case Block(_, _) =>
          assert items[before] == items[before..before + 1][0] == BlockItem(body[i]);
          SkipBlock(items, before, x);
      }
      before := before + |ItemsOf(body[i])|;
    }
    assert body[..|body|] == body;
    return NotFound;
  }

  lemma SkipBlock(items: seq<Item>, k: nat, x: Name)
    requires k < |items| && items[k].BlockItem?
    ensures LookupIn(items[k..], x) == LookupIn(items[k + 1..], x)
  {
    assert items[k..][1..] == items[k + 1..];
  }

  lemma NoItems(items: seq<Item>, x: Name)
    ensures Items([]) == [] && LookupIn(items[|items|..], x) == NotFound
  {
  }

  method FindInLine(smalls: seq<Small>, x: Name, ghost items: seq<Item>, ghost before: nat) returns (found: bool, r: Lookup)
    requires before + |smalls| <= |items| && items[before..before + |smalls|] == SmallItems(smalls)
    ensures LookupIn(items[before..], x) == if found then r else LookupIn(items[before + |smalls|..], x)
  {
    for j := 0 to |smalls|
      invariant LookupIn(items[before..], x) == LookupIn(items[before + j..], x)
    {
      assert items[before + j] == items[before..before + |smalls|][j] == SmallItem(smalls[j]);
      assert items[before + j..][1..] == items[before + j + 1..];
      if smalls[j].Assign? && |smalls[j].targets| == 1 && smalls[j].targets[0] == Name(x) {
        return true, Evaluate(smalls[j].value);
      }
    }
    return false, NotFound;
  }

  lemma {:induction false} ItemsPrefix(body: seq<Statement>, i: nat)
    requires i < |body|
    ensures var before := Items(body[..i]);
      before + ItemsOf(body[i]) == Items(body[..i + 1]) && Items(body[..i + 1]) <= Items(body)
    decreases |body|
  {
    assert body[..i + 1][..i] == body[..i];
    if i + 1 < |body| {
      var init := body[..|body| - 1];
      ItemsPrefix(init, i);
      assert init[..i + 1] == body[..i + 1] && init[..i] == body[..i];
    } else {
      assert body[..i + 1] == body;
    }
  }

  // ----- storing -----

  /** What becomes of small statements: the first assignment gets the value, later ones go. */
  function UpdatedSmalls(smalls: seq<Small>, x: Name, v: Value, found: bool): (seq<Small>, bool) {
    if smalls == [] then ([], found)
    else
      var (r, f) := UpdatedSmalls(smalls[..|smalls| - 1], x, v, found);
      var s := smalls[|smalls| - 1];
      if !Assigns(s, x) then (r + [s], f)
      else if f then (r, true)
      else (r + [Assignment(x, v)], true)
  }

  /** Lines that lose all their statements go too. */
  function UpdatedBody(body: seq<Statement>, x: Name, v: Value): (seq<Statement>, bool) {
    if body == [] then ([], false)
    else
      var (r, f) := UpdatedBody(body[..|body| - 1], x, v);
      match body[|body| - 1]
      case Block(_, _) => (r + [body[|body| - 1]], f)
      case Line(smalls) =>
        var (smalls', f') := UpdatedSmalls(smalls, x, v, f);
        (if smalls' == [] && smalls != [] then r else r + [Line(smalls')], f')
  }

  function Updated(body: seq<Statement>, x: Name, v: Value): seq<Statement> {
    var (r, found) := UpdatedBody(body, x, v);
    if found then r else r + [Line([Assignment(x, v)])]
  }

  /** A node of the tree is identified by the indices that lead to it. */
  type Path = seq<nat>

  datatype Kept = Removed | Kept(s: Small)

  class GlobalAssignValueTransformer {
    const x: Name
    const v: Value
    var foundOnce: bool
    var assigns: set<Path>

    constructor (x: Name, v: Value)
      ensures this.x == x && this.v == v && !foundOnce && assigns == {}
    {
      this.x, this.v, foundOnce, assigns := x, v, false, {};
    }

    /** The module-level assignments to the variable in the first n statements. */
    ghost predicate Gathered(body: seq<Statement>, n: nat)
      requires n <= |body|
      reads this
    {
      forall p :: p in assigns <==>
        |p| == 2 && p[0] < n && body[p[0]].Line? && p[1] < |body[p[0]].smalls| && Assigns(body[p[0]].smalls[p[1]], x)
    }

    method VisitModule(body: seq<Statement>)
      modifies this`assigns
      ensures Gathered(body, |body|)
    {
      assigns := {};
      for i := 0 to |body|
        invariant Gathered(body, i)
      {
        if body[i].Line? {
          var smalls := body[i].smalls;
          for j := 0 to |smalls|
            invariant forall p :: p in assigns <==>
              || (|p| == 2 && p[0] < i && body[p[0]].Line? && p[1] < |body[p[0]].smalls| && Assigns(body[p[0]].smalls[p[1]], x))
              || (|p| == 2 && p[0] == i && p[1] < j && Assigns(smalls[p[1]], x))
          {
            assert forall p: Path :: p == [i, j] <==> |p| == 2 && p[0] == i && p[1] == j;
            if smalls[j].Assign? && smalls[j].targets == [Name(x)] {
              assigns := assigns + {[i, j]};
            }
          }
        }
      }
    }

    method LeaveAssign(path: Path, s: Small) returns (r: Kept)
      requires s.Assign? && (path in assigns ==> Assigns(s, x))
      modifies this`foundOnce
      ensures foundOnce == (old(foundOnce) || path in assigns)
      ensures r == if path !in assigns then Kept(s) else if old(foundOnce) then Removed else Kept(Assignment(x, v))
    {
      if path !in assigns || |s.targets| != 1 {
        return Kept(s);
      }
      if foundOnce {
        return Removed;
      }
      if s.targets[0] == Name(x) {
        foundOnce := true;
        return Kept(s.(value := Literal(v)));
      }
      return Kept(s);
    }

    method VisitSmalls(smalls: seq<Small>, path: Path, ghost nested: bool) returns (r: seq<Small>)
      requires nested ==> forall j: nat :: path + [j] !in assigns
      requires !nested ==> forall j: nat :: j < |smalls| ==> (path + [j] in assigns <==> Assigns(smalls[j], x))
      modifies this`foundOnce
      ensures (r, foundOnce) == if nested then (smalls, old(foundOnce)) else UpdatedSmalls(smalls, x, v, old(foundOnce))
    {
      r := [];
      for j := 0 to |smalls|
        invariant (r, foundOnce) == if nested then (smalls[..j], old(foundOnce)) else UpdatedSmalls(smalls[..j], x, v, old(foundOnce))
      {
        assert smalls[..j + 1][..j] == smalls[..j] && smalls[..j + 1] == smalls[..j] + [smalls[j]];
        if smalls[j].Assign? {
          var kept := LeaveAssign(path + [j], smalls[j]);
          if kept.Kept? {
            r := r + [kept.s];
          }
        } else {
          r := r + [smalls[j]];
        }
      }
      assert smalls[..|smalls|] == smalls;
    }

    /** Statements inside compound statements are visited too, but stay as they are. */
    method VisitNested(body: seq<Statement>, path: Path) returns (r: seq<Statement>)
      requires |path| > 0 && forall p :: p in assigns ==> |p| == 2
      modifies this`foundOnce
      ensures r == body && foundOnce == old(foundOnce)
      decreases body
    {
      r := [];
      for i := 0 to |body|
        invariant r == body[..i] && foundOnce == old(foundOnce)
      {
        match body[i] {
          case Block(header, inner) =>
            var inner' := VisitNested(inner, path + [i]);
            r := r + [Block(header, inner')];
          case Line(smalls) =>
            var smalls' := VisitSmalls(smalls, path + [i], true);
            if smalls' != [] || smalls == [] {
              r := r + [Line(smalls')];
            }
        }
      }
    }

    method VisitBody(body: seq<Statement>) returns (r: seq<Statement>)
      requires Gathered(body, |body|) && !foundOnce
      modifies this`foundOnce
      ensures (r, foundOnce) == UpdatedBody(body, x, v)
    {
      r := [];
      for i := 0 to |body|
        invariant (r, foundOnce) == UpdatedBody(body[..i], x, v)
      {
        assert body[..i + 1][..i] == body[..i];
        match body[i] {
          case Block(header, inner) =>
            var inner' := VisitNested(inner, [i]);
            r := r + [Block(header, inner')];
          case Line(smalls) =>
            forall j: nat | j < |smalls| ensures [i] + [j] in assigns <==> Assigns(smalls[j], x) {
              assert ([i] + [j])[0] == i && ([i] + [j])[1] == j;
            }
            var smalls' := VisitSmalls(smalls, [i], false);
            if smalls' != [] || smalls == [] {
              r := r + [Line(smalls')];
            }
        }
      }
      assert body[..|body|] == body;
    }
  }

  method UpdateModuleLevelVariable(body: seq<Statement>, x: Name, v: Value) returns (r: seq<Statement>)
    ensures r == Updated(body, x, v)
  {
    var transformer := new GlobalAssignValueTransformer(x, v);
    transformer.VisitModule(body);
    r := transformer.VisitBody(body);
    if !transformer.foundOnce {
      r := r + [Line([Assignment(x, v)])];
    }
  }

  // ----- what an update does to the statements of a module -----

  ghost predicate Present(items: seq<Item>, x: Name) {
    exists i :: 0 <= i < |items| && !IsOther(x)(items[i])
  }

  /** The first assignment replaced, later ones removed. */
  ghost function Replaced(items: seq<Item>, x: Name, v: Value): seq<Item> {
    if items == [] then []
    else if IsOther(x)(items[0]) then [items[0]] + Replaced(items[1..], x, v)
    else [SmallItem(Assignment(x, v))] + Filter(items[1..], IsOther(x))
  }

  ghost function Stored(items: seq<Item>, x: Name, v: Value): seq<Item> {
    if Present(items, x) then Replaced(items, x, v) else items + [SmallItem(Assignment(x, v))]
  }

  lemma NothingPresent(x: Name)
    ensures !Present([], x)
  {
  }

  lemma PresentFirst(items: seq<Item>, x: Name)
    requires items != []
    ensures Present(items, x) == (!IsOther(x)(items[0]) || Present(items[1..], x))
  {
    PresentAppend([items[0]], items[1..], x);
    assert items == [items[0]] + items[1..];
    assert [items[0]][0] == items[0];
  }

  lemma {:induction false} ReplacedPresent(a: seq<Item>, b: seq<Item>, x: Name, v: Value)
    requires Present(a, x)
    ensures Replaced(a + b, x, v) == Replaced(a, x, v) + Filter(b, IsOther(x))
  {
    hide Present, Filter;
    NothingPresent(x);
    PresentFirst(a, x);
    assert (a + b)[1..] == a[1..] + b && (a + b)[0] == a[0];
    if IsOther(x)(a[0]) {
      ReplacedPresent(a[1..], b, x, v);
    } else {
      FilterAppend(a[1..], b, IsOther(x));
    }
  }

  lemma {:induction false} ReplacedAbsent(a: seq<Item>, b: seq<Item>, x: Name, v: Value)
    requires !Present(a, x)
    ensures Replaced(a + b, x, v) == a + Replaced(b, x, v)
  {
    hide Present;
    if a == [] {
      assert a + b == b;
    } else {
      PresentFirst(a, x);
      assert (a + b)[1..] == a[1..] + b && (a + b)[0] == a[0];
      ReplacedAbsent(a[1..], b, x, v);
    }
  }

  lemma ReplacedAppend(a: seq<Item>, b: seq<Item>, x: Name, v: Value)
    ensures Present(a + b, x) == (Present(a, x) || Present(b, x))
    ensures Replaced(a + b, x, v) == if Present(a, x) then Replaced(a, x, v) + Filter(b, IsOther(x)) else a + Replaced(b, x, v)
  {
    hide Present, Filter, Replaced;
    PresentAppend(a, b, x);
    if Present(a, x) {
      ReplacedPresent(a, b, x, v);
    } else {
      ReplacedAbsent(a, b, x, v);
    }
  }

  lemma PresentAppend(a: seq<Item>, b: seq<Item>, x: Name)
    ensures Present(a + b, x) == (Present(a, x) || Present(b, x))
  {
    var c := a + b;
    if i :| 0 <= i < |a| && !IsOther(x)(a[i]) {
      assert !IsOther(x)(c[i]);
    }
    if i :| 0 <= i < |b| && !IsOther(x)(b[i]) {
      assert !IsOther(x)(c[|a| + i]);
    }
  }

  lemma SmallItemsAppend(a: seq<Small>, b: seq<Small>)
    ensures SmallItems(a + b) == SmallItems(a) + SmallItems(b)
  {
  }

  lemma {:induction false} SmallsReplaced(smalls: seq<Small>, x: Name, v: Value, found: bool)
    ensures var (r, f) := UpdatedSmalls(smalls, x, v, found);
      && f == (found || Present(SmallItems(smalls), x))
      && SmallItems(r) == if found then Filter(SmallItems(smalls), IsOther(x)) else Replaced(SmallItems(smalls), x, v)
  {
    if smalls == [] {
      assert SmallItems([]) == [];
    } else {
      var init, s := smalls[..|smalls| - 1], smalls[|smalls| - 1];
      var (r, f) := UpdatedSmalls(init, x, v, found);
      SmallsReplaced(init, x, v, found);
      assert smalls == init + [s];
      ItemReplaced(init, s, r, f, x, v, found);
    }
  }

  lemma ItemReplaced(init: seq<Small>, s: Small, r: seq<Small>, f: bool, x: Name, v: Value, found: bool)
    requires f == (found || Present(SmallItems(init), x))
    requires SmallItems(r) == if found then Filter(SmallItems(init), IsOther(x)) else Replaced(SmallItems(init), x, v)
    ensures var items := SmallItems(init + [s]);
      var kept := if !Assigns(s, x) then [s] else if f then [] else [Assignment(x, v)];
      && (f || Assigns(s, x)) == (found || Present(items, x))
      && SmallItems(r + kept) == if found then Filter(items, IsOther(x)) else Replaced(items, x, v)
  {
    hide Present, Replaced, Filter;
    var a, i := SmallItems(init), SmallItem(s);
    SmallItemsAppend(init, [s]);
    assert SmallItems([s]) == [i];
    ReplacedAppend(a, [i], x, v);
    FilterAppend(a, [i], IsOther(x));
    SingleReplaced(i, x, v);
    if !Present(a, x) {
      NotPresentReplaced(a, x, v);
    }
    SmallItemsAppend(r, if !Assigns(s, x) then [s] else if f then [] else [Assignment(x, v)]);
    assert SmallItems([Assignment(x, v)]) == [SmallItem(Assignment(x, v))];
    assert SmallItems([]) == [];
    assert r + [] == r && SmallItems(r) + [] == SmallItems(r);
  }

  lemma SingleReplaced(i: Item, x: Name, v: Value)
    ensures Present([i], x) == !IsOther(x)(i)
    ensures Replaced([i], x, v) == if IsOther(x)(i) then [i] else [SmallItem(Assignment(x, v))]
    ensures Filter([i], IsOther(x)) == if IsOther(x)(i) then [i] else []
  {
    assert [i][..0] == [];
    assert [i][0] == i;
  }

  lemma {:induction false} NotPresentReplaced(items: seq<Item>, x: Name, v: Value)
    requires !Present(items, x)
    ensures Replaced(items, x, v) == items
  {
    if items != [] {
      assert IsOther(x)(items[0]);
      PresentAppend([items[0]], items[1..], x);
      assert items == [items[0]] + items[1..];
      NotPresentReplaced(items[1..], x, v);
    }
  }

  lemma ItemsAppend(body: seq<Statement>, s: Statement)
    ensures Items(body + [s]) == Items(body) + ItemsOf(s)
  {
    assert (body + [s])[..|body|] == body;
  }

  lemma {:induction false} BodyReplaced(body: seq<Statement>, x: Name, v: Value)
    ensures var (r, f) := UpdatedBody(body, x, v);
      f == Present(Items(body), x) && Items(r) == Replaced(Items(body), x, v)
  {
    if body != [] {
      var init, s := body[..|body| - 1], body[|body| - 1];
      var (r, f) := UpdatedBody(init, x, v);
      BodyReplaced(init, x, v);
      StatementReplaced(Items(init), s, r, f, x, v);
    }
  }

  lemma StatementReplaced(items: seq<Item>, s: Statement, r: seq<Statement>, f: bool, x: Name, v: Value)
    requires f == Present(items, x) && Items(r) == Replaced(items, x, v)
    ensures s.Block? ==> !Present(ItemsOf(s), x) && Present(items + ItemsOf(s), x) == f && Items(r + [s]) == Replaced(items + ItemsOf(s), x, v)
    ensures s.Line? ==>
      var (smalls, f') := UpdatedSmalls(s.smalls, x, v, f);
      && f' == Present(items + ItemsOf(s), x)
      && Items(if smalls == [] && s.smalls != [] then r else r + [Line(smalls)]) == Replaced(items + ItemsOf(s), x, v)
  {
    hide Present, Replaced, Filter, Items, UpdatedSmalls;
    ReplacedAppend(items, ItemsOf(s), x, v);
    if !f {
      NotPresentReplaced(items, x, v);
    }
    match s {
      case Block(_, _) =>
        SingleReplaced(BlockItem(s), x, v);
        ItemsAppend(r, s);
      case Line(smalls) =>
        SmallsReplaced(smalls, x, v, f);
        var smalls' := UpdatedSmalls(smalls, x, v, f).0;
        ItemsAppend(r, Line(smalls'));
        assert smalls' == [] ==> SmallItems(smalls') == [] && Items(r) + [] == Items(r);
    }
  }

  // ----- main results -----

  /** An update stores the value in the first module-level assignment to the variable, or in a new one at
      the end, and removes the others. All other statements keep content and order, with everything
      inside compound statements. */
  lemma UpdateStores(body: seq<Statement>, x: Name, v: Value)
    ensures Items(Updated(body, x, v)) == Stored(Items(body), x, v)
  {
    BodyReplaced(body, x, v);
    if !Present(Items(body), x) {
      NotPresentReplaced(Items(body), x, v);
      ItemsAppend(UpdatedBody(body, x, v).0, Line([Assignment(x, v)]));
    }
  }

  lemma {:induction false} LookupReplaced(items: seq<Item>, x: Name, v: Value, y: Name)
    requires Present(items, x)
    ensures LookupIn(Replaced(items, x, v), y) == if y == x then Found(v) else LookupIn(items, y)
  {
    var stored := SmallItem(Assignment(x, v));
    if IsOther(x)(items[0]) {
      assert items == [items[0]] + items[1..];
      PresentAppend([items[0]], items[1..], x);
      SingleReplaced(items[0], x, v);
      LookupReplaced(items[1..], x, v, y);
      assert Replaced(items, x, v)[1..] == Replaced(items[1..], x, v);
    } else {
      assert Replaced(items, x, v)[1..] == Filter(items[1..], IsOther(x));
      if y != x {
        LookupFiltered(items[1..], x, y);
      }
    }
  }

  lemma {:induction false} LookupFiltered(items: seq<Item>, x: Name, y: Name)
    requires y != x
    ensures LookupIn(Filter(items, IsOther(x)), y) == LookupIn(items, y)
  {
    if items != [] {
      assert items == [items[0]] + items[1..];
      FilterAppend([items[0]], items[1..], IsOther(x));
      SingleReplaced(items[0], x, 0);
      LookupFiltered(items[1..], x, y);
      if IsOther(x)(items[0]) {
        assert Filter(items, IsOther(x))[1..] == Filter(items[1..], IsOther(x));
      } else {
        assert Filter(items, IsOther(x)) == Filter(items[1..], IsOther(x));
      }
    }
  }

  lemma {:induction false} LookupAppended(items: seq<Item>, x: Name, v: Value, y: Name)
    requires !Present(items, x)
    ensures LookupIn(items + [SmallItem(Assignment(x, v))], y) == if y == x then Found(v) else LookupIn(items, y)
  {
    var stored := SmallItem(Assignment(x, v));
    if items != [] {
      assert IsOther(x)(items[0]);
      assert items == [items[0]] + items[1..];
      PresentAppend([items[0]], items[1..], x);
      LookupAppended(items[1..], x, v, y);
      assert (items + [stored])[1..] == items[1..] + [stored];
    } else {
      assert ([stored])[1..] == [];
    }
  }

  /** Reading a variable after an update gives the new value for the updated variable, also if it could
      not be read before, and for others what it gave before. */
  lemma GetAfterUpdate(body: seq<Statement>, x: Name, v: Value, y: Name)
    ensures LookupIn(Items(Updated(body, x, v)), y) == if y == x then Found(v) else LookupIn(Items(body), y)
  {
    UpdateStores(body, x, v);
    if Present(Items(body), x) {
      LookupReplaced(Items(body), x, v, y);
    } else {
      LookupAppended(Items(body), x, v, y);
    }
  }

  lemma PresentFront(items: seq<Item>, x: Name, v: Value)
    requires items != []
    ensures Present(items, x) <==> !IsOther(x)(items[0]) || Present(items[1..], x)
    ensures !IsOther(x)(SmallItem(Assignment(x, v)))
  {
    assert items == [items[0]] + items[1..];
    PresentAppend([items[0]], items[1..], x);
    SingleReplaced(items[0], x, v);
    SingleReplaced(SmallItem(Assignment(x, v)), x, v);
  }

  lemma {:induction false} ReplacedOthers(items: seq<Item>, x: Name, v: Value)
    ensures Filter(Replaced(items, x, v), IsOther(x)) == Filter(items, IsOther(x))
    ensures |Replaced(items, x, v)| == |Filter(items, IsOther(x))| + if Present(items, x) then 1 else 0
  {
    hide Filter, IsOther, Present;
    if items == [] {
      FilterNone([], IsOther(x));
      NothingPresent(x);
    } else {
      assert items == [items[0]] + items[1..];
      FilterFront(items, IsOther(x));
      FilterFront(Replaced(items, x, v), IsOther(x));
      PresentFront(items, x, v);
      if IsOther(x)(items[0]) {
        ReplacedOthers(items[1..], x, v);
      } else {
        FilterTwice(items[1..], IsOther(x), IsOther(x), IsOther(x));
      }
    }
  }

  /** After an update the module has exactly one assignment to the variable; its other statements are
      those it had, in their order. */
  lemma UpdateKeepsOthers(body: seq<Statement>, x: Name, v: Value)
    ensures Filter(Items(Updated(body, x, v)), IsOther(x)) == Filter(Items(body), IsOther(x))
    ensures |Items(Updated(body, x, v))| == |Filter(Items(body), IsOther(x))| + 1
  {
    var items, stored := Items(body), SmallItem(Assignment(x, v));
    UpdateStores(body, x, v);
    ReplacedOthers(items, x, v);
    if !Present(items, x) {
      NotPresentReplaced(items, x, v);
      FilterAppend(items, [stored], IsOther(x));
      SingleReplaced(stored, x, v);
    }
  }

  // ----- a second update overrides the first -----

  // ----- statements around -----

  /** Not assigned in any line. */
  ghost predicate Unassigned(body: seq<Statement>, x: Name) {
    forall i, j :: 0 <= i < |body| ==> !LineAssigns(body[i], x, j)
  }

  lemma {:induction false} SmallsUntouched(smalls: seq<Small>, x: Name, v: Value, found: bool)
    requires forall j :: 0 <= j < |smalls| ==> !Assigns(smalls[j], x)
    ensures UpdatedSmalls(smalls, x, v, found) == (smalls, found)
  {
    if smalls != [] {
      SmallsUntouched(smalls[..|smalls| - 1], x, v, found);
      assert smalls == smalls[..|smalls| - 1] + [smalls[|smalls| - 1]];
    }
  }

  lemma LineUntouched(s: Statement, x: Name)
    requires s.Line? && forall j :: !LineAssigns(s, x, j)
    ensures forall j :: 0 <= j < |s.smalls| ==> !Assigns(s.smalls[j], x)
  {
    forall j | 0 <= j < |s.smalls| ensures !Assigns(s.smalls[j], x) {
      assert !LineAssigns(s, x, j);
    }
  }

  lemma {:induction false} BodyThenUntouched(body: seq<Statement>, after: seq<Statement>, x: Name, v: Value)
    requires Unassigned(after, x)
    ensures UpdatedBody(body + after, x, v) == (UpdatedBody(body, x, v).0 + after, UpdatedBody(body, x, v).1)
  {
    if after == [] {
      assert body + after == body && UpdatedBody(body, x, v).0 + after == UpdatedBody(body, x, v).0;
    } else {
      var s := after[|after| - 1];
      assert (body + after)[..|body + after| - 1] == body + after[..|after| - 1];
      BodyThenUntouched(body, after[..|after| - 1], x, v);
      var r := UpdatedBody(body, x, v).0;
      assert r + after[..|after| - 1] + [s] == r + after;
      if s.Line? {
        LineUntouched(s, x);
        SmallsUntouched(s.smalls, x, v, UpdatedBody(body, x, v).1);
      }
    }
  }

  lemma {:induction false} UntouchedThenBody(before: seq<Statement>, body: seq<Statement>, x: Name, v: Value)
    requires Unassigned(before, x)
    ensures UpdatedBody(before + body, x, v) == (before + UpdatedBody(body, x, v).0, UpdatedBody(body, x, v).1)
  {
    if body == [] {
      BodyThenUntouched([], before, x, v);
      assert before + body == before && [] + before == before;
    } else {
      assert (before + body)[..|before + body| - 1] == before + body[..|body| - 1];
      UntouchedThenBody(before, body[..|body| - 1], x, v);
      var r := UpdatedBody(body[..|body| - 1], x, v).0;
      assert forall t :: before + r + [t] == before + (r + [t]);
    }
  }

  /** Statements before and after, in which the variable is not assigned, stay as they are, also those
      without content; only if it is assigned nowhere does a line come at the end. */
  lemma UpdateIsLocal(before: seq<Statement>, body: seq<Statement>, after: seq<Statement>, x: Name, v: Value)
    requires Unassigned(before, x) && Unassigned(after, x) && !Unassigned(body, x)
    ensures Updated(before + body + after, x, v) == before + Updated(body, x, v) + after
    ensures Updated(before + after, x, v) == before + after + [Line([Assignment(x, v)])]
  {
    BodyThenUntouched(before + body, after, x, v);
    UntouchedThenBody(before, body, x, v);
    FoundExact(body, x, v);
    BodyThenUntouched(before, after, x, v);
    BodyThenUntouched([], before, x, v);
    assert [] + before == before;
  }

  lemma {:induction false} FoundExact(body: seq<Statement>, x: Name, v: Value)
    ensures UpdatedBody(body, x, v).1 <==> !Unassigned(body, x)
  {
    if body != [] {
      var init, s := body[..|body| - 1], body[|body| - 1];
      FoundExact(init, x, v);
      assert body == init + [s];
      if s.Line? {
        SmallsFound(s.smalls, x, v, UpdatedBody(init, x, v).1);
        assert forall j :: 0 <= j < |s.smalls| ==> (LineAssigns(s, x, j) <==> Assigns(s.smalls[j], x));
      }
      assert forall j :: LineAssigns(s, x, j) ==> LineAssigns(body[|init|], x, j);
      assert Unassigned(body, x) <==> Unassigned(init, x) && forall j :: !LineAssigns(s, x, j);
    }
  }

  lemma {:induction false} SmallsFound(smalls: seq<Small>, x: Name, v: Value, found: bool)
    ensures UpdatedSmalls(smalls, x, v, found).1 <==> found || exists j :: 0 <= j < |smalls| && Assigns(smalls[j], x)
  {
    if smalls != [] {
      SmallsFound(smalls[..|smalls| - 1], x, v, found);
    }
  }

  lemma {:induction false} SmallsTwice(smalls: seq<Small>, x: Name, v: Value, w: Value, found: bool)
    ensures var (r, f) := UpdatedSmalls(smalls, x, v, found);
      && UpdatedSmalls(r, x, w, found) == UpdatedSmalls(smalls, x, w, found)
      && UpdatedSmalls(smalls, x, w, found).1 == f && |UpdatedSmalls(smalls, x, w, found).0| == |r|
  {
    if smalls != [] {
      var init, s := smalls[..|smalls| - 1], smalls[|smalls| - 1];
      var (r, f) := UpdatedSmalls(init, x, v, found);
      SmallsTwice(init, x, v, w, found);
      assert forall t: Small :: (r + [t])[..|r|] == r;
    }
  }

  lemma {:induction false} BodyTwice(body: seq<Statement>, x: Name, v: Value, w: Value)
    ensures var (r, f) := UpdatedBody(body, x, v);
      UpdatedBody(r, x, w) == UpdatedBody(body, x, w) && UpdatedBody(body, x, w).1 == f
  {
    if body != [] {
      var init, s := body[..|body| - 1], body[|body| - 1];
      var (r, f) := UpdatedBody(init, x, v);
      BodyTwice(init, x, v, w);
      assert forall t: Statement :: (r + [t])[..|r|] == r;
      if s.Line? {
        SmallsTwice(s.smalls, x, v, w, f);
      }
    }
  }

  /** A second update overrides the first without a trace. */
  lemma UpdateTwice(body: seq<Statement>, x: Name, v: Value, w: Value)
    ensures Updated(Updated(body, x, v), x, w) == Updated(body, x, w)
  {
    var (r, f) := UpdatedBody(body, x, v);
    BodyTwice(body, x, v, w);
    if !f {
      var line := Line([Assignment(x, v)]);
      assert (r + [line])[..|r|] == r;
      assert [Assignment(x, v)][..0] == [];
      assert UpdatedSmalls([], x, w, false) == ([], false);
      assert UpdatedSmalls([Assignment(x, v)], x, w, false).0 == [] + [Assignment(x, w)] == [Assignment(x, w)];
    }
  }
}
