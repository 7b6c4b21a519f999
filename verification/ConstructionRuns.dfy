/** Whole constructions: what any sequence of calls on a workflow constructor leads to, and why a call in
    it is refused. */
module ConstructionRuns {
  import opened Wrappers
  import opened IOTypes
  import opened InputOrdering
  import opened WorkflowConstruction

  /** A call on the constructor with the connectors it is about. */
  datatype Request =
    | AddOperator
    | AddLink(link: Link)
    | AddInput(name: Name, slot: Slot, inp: Vertex)
    | AddOutput(name: Name, outp: Vertex)
    | AddConstant(inp: Vertex, value: string)
    | Unknown  // a name or operator that is not there

  // ----- runs -----

  /** An input or output of the operator it names. */
  ghost predicate KnownEnd(b: Board, v: Vertex) {
    v.connectorId in b.ins && v.operator == Some(b.ins[v.connectorId].operator)
  }

  ghost predicate KnownStart(b: Board, v: Vertex) {
    v.connectorId in b.outs && v.operator == Some(b.outs[v.connectorId].operator)
  }

  ghost predicate Accepts(b: Board, r: Request, isIdentifier: Name -> bool) {
    match r
    case AddOperator => true
    case AddLink(l) => Linkable(b, l) && ValidLink(l)
    case AddInput(name, _, v) => KnownEnd(b, v) && !b.ins[v.connectorId].blocked && isIdentifier(name)
    case AddOutput(name, v) => KnownStart(b, v) && !b.outs[v.connectorId].isLinkStart && isIdentifier(name)
    case AddConstant(v, _) => KnownEnd(b, v) && !b.ins[v.connectorId].blocked
    case Unknown => false
  }

  /** The entry a request leads to: it carries the connector it is about, with name and type. */
  ghost predicate EntryFor(e: Entry, r: Request) {
    match r
    case AddInput(name, slot, v) =>
      e.InEntry? && e.i.name == Some(name) && e.i.slot == slot && Vertex(Some(e.i.operatorId), e.i.connectorId, e.i.connectorName, e.i.dataType) == v
    case AddOutput(name, v) =>
      e.OutEntry? && e.o.name == Some(name) && e.o.slot == Slot.Output && Vertex(Some(e.o.operatorId), e.o.connectorId, e.o.connectorName, e.o.dataType) == v
    case AddConstant(v, value) =>
      e.ConstEntry? && e.c.value == value && Vertex(Some(e.c.operatorId), e.c.connectorId, e.c.connectorName, e.c.dataType) == v
    case _ => false
  }

  /** What an accepted request changes. */
  ghost predicate Performed(b: Board, r: Request, b': Board) {
    match r
    case AddOperator => exists operator :: Extends(b, b', operator)
    case AddLink(l) => Linkable(b, l) && b' == WithLink(b, l)
    case AddInput(_, _, v) => exists e :: EntryFor(e, r) && Feedable(b, e, v.connectorId) && b' == WithInput(b, e, v.connectorId)
    case AddOutput(_, v) => exists e :: EntryFor(e, r) && Drawable(b, e, v.connectorId) && b' == WithOutput(b, e, v.connectorId)
    case AddConstant(v, _) => exists e :: EntryFor(e, r) && Feedable(b, e, v.connectorId) && b' == WithInput(b, e, v.connectorId)
    case Unknown => false
  }

  ghost predicate Step(b: Board, r: Request, b': Board, isIdentifier: Name -> bool) {
    if Accepts(b, r, isIdentifier) then Performed(b, r, b') else b' == b
  }

  /** Requests one after the other, and the board before each of them and at the end. */
  datatype Run = Run(boards: seq<Board>, requests: seq<Request>, isIdentifier: Name -> bool)

  ghost predicate IsRun(run: Run) {
    && |run.boards| == |run.requests| + 1 && run.boards[0] == Board([], [], map[], map[], 0)
    && forall n :: 0 <= n < |run.requests| ==> Step(run.boards[n], run.requests[n], run.boards[n + 1], run.isIdentifier)
  }

  ghost predicate Accepted(run: Run, m: nat)
    requires |run.boards| == |run.requests| + 1
  {
    m < |run.requests| && Accepts(run.boards[m], run.requests[m], run.isIdentifier)
  }

  // ----- invariants of all runs -----

  lemma StepConsistent(b: Board, r: Request, b': Board, isIdentifier: Name -> bool)
    requires Consistent(b) && Step(b, r, b', isIdentifier)
    ensures Consistent(b')
  {
    hide Consistent, Linkable, Feedable, Drawable, Extends, WithLink, WithInput, WithOutput, EntryFor;
    if Accepts(b, r, isIdentifier) {
      match r {
        case AddOperator =>
          var operator :| Extends(b, b', operator);
          ExtendsConsistent(b, b', operator);
        case AddLink(l) =>
          WithLinkConsistent(b, l);
        case AddInput(_, _, v) =>
          var e :| EntryFor(e, r) && Feedable(b, e, v.connectorId) && b' == WithInput(b, e, v.connectorId);
          WithInputConsistent(b, e, v.connectorId);
        case AddOutput(_, v) =>
          var e :| EntryFor(e, r) && Drawable(b, e, v.connectorId) && b' == WithOutput(b, e, v.connectorId);
          WithOutputConsistent(b, e, v.connectorId);
        case AddConstant(v, _) =>
          var e :| EntryFor(e, r) && Feedable(b, e, v.connectorId) && b' == WithInput(b, e, v.connectorId);
          WithInputConsistent(b, e, v.connectorId);
      }
    }
  }

  /** After every sequence of calls, accepted or refused, flags and links agree. */
  lemma {:induction false} RunConsistent(run: Run, n: nat)
    requires IsRun(run) && n <= |run.requests|
    ensures Consistent(run.boards[n])
  {
    hide Step;
    if n > 0 {
      RunConsistent(run, n - 1);
      StepConsistent(run.boards[n - 1], run.requests[n - 1], run.boards[n], run.isIdentifier);
    } else {
      EmptyConsistent();
    }
  }

  lemma EmptyConsistent()
    ensures Consistent(Board([], [], map[], map[], 0))
  {
  }

  // ----- what decides whether a request is accepted -----

  /** The request occupies the input. */
  predicate Takes(r: Request, i: Uuid) {
    match r
    case AddLink(l) => l.end.connectorId == i
    case AddInput(_, _, v) => v.connectorId == i
    case AddConstant(v, _) => v.connectorId == i
    case _ => false
  }

  predicate StartsAt(r: Request, o: Uuid) {
    r.AddLink? && r.link.start.connectorId == o
  }

  predicate DrawsFrom(r: Request, o: Uuid) {
    r.AddOutput? && r.outp.connectorId == o
  }

  /** What a step does to the flags of the connectors there were, and which flags new ones have. */
  lemma StepFlags(b: Board, r: Request, b': Board, isIdentifier: Name -> bool)
    requires Step(b, r, b', isIdentifier)
    ensures var done := Accepts(b, r, isIdentifier);
      && (forall i :: i in b.ins ==> i in b'.ins && b'.ins[i] == b.ins[i].(blocked := b.ins[i].blocked || (done && Takes(r, i))))
      && (forall o :: o in b.outs ==> o in b'.outs && b'.outs[o] == b.outs[o].(
            isLinkStart := b.outs[o].isLinkStart || (done && StartsAt(r, o)),
            isTrafoOutput := b.outs[o].isTrafoOutput || (done && DrawsFrom(r, o))))
      && (forall i :: i in b'.ins && i !in b.ins ==> b.nextId <= i && !b'.ins[i].blocked)
      && (forall o :: o in b'.outs && o !in b.outs ==> b.nextId <= o && !b'.outs[o].isLinkStart && !b'.outs[o].isTrafoOutput)
      && b.nextId <= b'.nextId
  {
    hide EntryFor, Links, Ends, Starts, EntryLink;
  }

  /** An accepted request is about connectors that were there. */
  lemma AcceptedKnown(b: Board, r: Request, isIdentifier: Name -> bool)
    requires Accepts(b, r, isIdentifier)
    ensures forall i :: Takes(r, i) ==> i in b.ins
    ensures forall o :: StartsAt(r, o) || DrawsFrom(r, o) ==> o in b.outs
  {
  }

  ghost predicate TakenBefore(run: Run, n: nat, i: Uuid)
    requires |run.boards| == |run.requests| + 1
  {
    exists m :: 0 <= m < n && Accepted(run, m) && Takes(run.requests[m], i)
  }

  ghost predicate StartedBefore(run: Run, n: nat, o: Uuid)
    requires |run.boards| == |run.requests| + 1
  {
    exists m :: 0 <= m < n && Accepted(run, m) && StartsAt(run.requests[m], o)
  }

  ghost predicate DrawnBefore(run: Run, n: nat, o: Uuid)
    requires |run.boards| == |run.requests| + 1
  {
    exists m :: 0 <= m < n && Accepted(run, m) && DrawsFrom(run.requests[m], o)
  }

  /** An input is marked as blocked exactly if an earlier request that was accepted connected it; an
      output is a link start or a workflow output exactly if one made it so. */
  lemma {:induction false} RunFlags(run: Run, n: nat)
    requires IsRun(run) && n <= |run.requests|
    ensures var b := run.boards[n];
      && (forall i :: i in b.ins ==> (b.ins[i].blocked <==> TakenBefore(run, n, i)))
      && (forall o :: o in b.outs ==> (b.outs[o].isLinkStart <==> StartedBefore(run, n, o)))
      && (forall o :: o in b.outs ==> (b.outs[o].isTrafoOutput <==> DrawnBefore(run, n, o)))
      && (forall i :: TakenBefore(run, n, i) ==> i in b.ins)
      && (forall o :: StartedBefore(run, n, o) || DrawnBefore(run, n, o) ==> o in b.outs)
  {
    hide Step, Accepts, Takes, StartsAt, DrawsFrom;
    if n > 0 {
      RunFlags(run, n - 1);
      var r := run.requests[n - 1];
      StepFlags(run.boards[n - 1], r, run.boards[n], run.isIdentifier);
      if Accepted(run, n - 1) {
        AcceptedKnown(run.boards[n - 1], r, run.isIdentifier);
      }
      assert forall i :: TakenBefore(run, n, i) <==> TakenBefore(run, n - 1, i) || (Accepted(run, n - 1) && Takes(r, i));
      assert forall o :: StartedBefore(run, n, o) <==> StartedBefore(run, n - 1, o) || (Accepted(run, n - 1) && StartsAt(r, o));
      assert forall o :: DrawnBefore(run, n, o) <==> DrawnBefore(run, n - 1, o) || (Accepted(run, n - 1) && DrawsFrom(r, o));
    }
  }

  /** Acceptance depends on the earlier requests only: a link, workflow input or constant is refused
      exactly if its input was connected before, an output if what it is to be conflicts with what it was
      made, or if the request is invalid in itself. */
  lemma AcceptedExactly(run: Run, n: nat)
    requires IsRun(run) && n < |run.requests|
    ensures var b := run.boards[n];
      Accepted(run, n) <==>
        match run.requests[n]
        case AddOperator => true
        case AddLink(l) =>
          KnownStart(b, l.start) && KnownEnd(b, l.end) && ValidLink(l) && !TakenBefore(run, n, l.end.connectorId) && !DrawnBefore(run, n, l.start.connectorId)
        case AddInput(name, _, v) => KnownEnd(b, v) && run.isIdentifier(name) && !TakenBefore(run, n, v.connectorId)
        case AddOutput(name, v) => KnownStart(b, v) && run.isIdentifier(name) && !StartedBefore(run, n, v.connectorId)
        case AddConstant(v, _) => KnownEnd(b, v) && !TakenBefore(run, n, v.connectorId)
        case Unknown => false
  {
    hide TakenBefore, StartedBefore, DrawnBefore, Step;
    RunFlags(run, n);
  }

  /** In a whole construction no operator input is connected twice, whatever was tried in between. */
  lemma ConnectedOnce(run: Run, m: nat, n: nat, i: Uuid)
    requires IsRun(run) && Accepted(run, m) && Accepted(run, n)
    requires Takes(run.requests[m], i) && Takes(run.requests[n], i)
    ensures m == n
  {
    if m < n {
      RunFlags(run, n);
      assert TakenBefore(run, n, i);
    } else if n < m {
      RunFlags(run, m);
      assert TakenBefore(run, m, i);
    }
  }

  /** Nor does an output both start links and feed workflow outputs. */
  lemma StartOrDrawn(run: Run, m: nat, n: nat, o: Uuid)
    requires IsRun(run) && Accepted(run, m) && Accepted(run, n)
    ensures !(StartsAt(run.requests[m], o) && DrawsFrom(run.requests[n], o))
  {
    if StartsAt(run.requests[m], o) && DrawsFrom(run.requests[n], o) {
      if m < n {
        RunFlags(run, n);
        assert StartedBefore(run, n, o);
      } else {
        RunFlags(run, m);
        assert DrawnBefore(run, m, o);
      }
    }
  }

  // ----- what is recorded -----

  /** The links of the accepted requests, in order. */
  ghost function AcceptedLinks(run: Run, n: nat): seq<Link>
    requires |run.boards| == |run.requests| + 1 && n <= |run.requests|
  {
    if n == 0 then []
    else
      var r := run.requests[n - 1];
      AcceptedLinks(run, n - 1) + (if Accepted(run, n - 1) && r.AddLink? then [r.link] else [])
  }

  /** The accepted requests that connect to the outside, in order. */
  ghost function Connections(run: Run, n: nat): seq<Request>
    requires |run.boards| == |run.requests| + 1 && n <= |run.requests|
  {
    if n == 0 then []
    else
      var r := run.requests[n - 1];
      Connections(run, n - 1) + (if Accepted(run, n - 1) && (r.AddInput? || r.AddOutput? || r.AddConstant?) then [r] else [])
  }

  ghost predicate EntriesFor(es: seq<Entry>, rs: seq<Request>) {
    |es| == |rs| && forall k :: 0 <= k < |es| ==> EntryFor(es[k], rs[k])
  }

  lemma StepRecords(b: Board, r: Request, b': Board, isIdentifier: Name -> bool)
    requires Step(b, r, b', isIdentifier)
    ensures b'.links == b.links + if Accepts(b, r, isIdentifier) && r.AddLink? then [r.link] else []
    ensures if Accepts(b, r, isIdentifier) && (r.AddInput? || r.AddOutput? || r.AddConstant?)
      then exists e :: EntryFor(e, r) && b'.entries == b.entries + [e]
      else b'.entries == b.entries
  {
    hide EntryFor, Feedable, Drawable;
  }

  /** The constructor records the accepted requests in order, each once, and nothing else. */
  lemma {:induction false} RunRecords(run: Run, n: nat)
    requires IsRun(run) && n <= |run.requests|
    ensures run.boards[n].links == AcceptedLinks(run, n) && EntriesFor(run.boards[n].entries, Connections(run, n))
  {
    hide Step, Accepts, EntryFor;
    if n > 0 {
      RunRecords(run, n - 1);
      StepRecords(run.boards[n - 1], run.requests[n - 1], run.boards[n], run.isIdentifier);
    }
  }

  // ----- constructions on the heap -----

  /** A call as it is written: operators by the order of their creation, connectors by name. */
  datatype Command =
    | Op(trafo: Trafo)
    | Connect(start: nat, output: Name, end: nat, inp: Name)
    | Input(name: Name, operator: nat, inp: Name, optional: bool, defaultValue: Option<Value>)
    | Output(name: Name, operator: nat, output: Name)
    | SetConstant(operator: nat, inp: Name, value: string)

  /** The revisions of the operators that were created. */
  function Revisions(cmds: seq<Command>): seq<Trafo> {
    if cmds == [] then []
    else
      var c := cmds[|cmds| - 1];
      Revisions(cmds[..|cmds| - 1]) + (if c.Op? then [c.trafo] else [])
  }

  function FindInput(infos: seq<OperatorInfo>, operator: nat, n: Name): Option<OperatorInputInfo> {
    if operator < |infos| && n in infos[operator].inputInfos then Some(infos[operator].inputInfos[n]) else None
  }

  function FindOutput(infos: seq<OperatorInfo>, operator: nat, n: Name): Option<OperatorOutputInfo> {
    if operator < |infos| && n in infos[operator].outputInfos then Some(infos[operator].outputInfos[n]) else None
  }

  /** What a command asks for, given the operators created so far. */
  function Asked(c: Command, infos: seq<OperatorInfo>): Request {
    match c
    case Op(_) => AddOperator
    case Connect(s, output, e, inp) =>
      var o, i := FindOutput(infos, s, output), FindInput(infos, e, inp);
      if o.Some? && i.Some? then AddLink(InnerLink(o.value, i.value)) else Unknown
    case Input(name, k, inp, optional, defaultValue) =>
      var i := FindInput(infos, k, inp);
      if i.Some? then AddInput(name, InputSlot(optional, defaultValue), LinkEnd(i.value)) else Unknown
    case Output(name, k, output) =>
      var o := FindOutput(infos, k, output);
      if o.Some? then AddOutput(name, LinkStart(o.value)) else Unknown
    case SetConstant(k, inp, value) =>
      var i := FindInput(infos, k, inp);
      if i.Some? then AddConstant(LinkEnd(i.value), value) else Unknown
  }

  /** The infos are those of an operator for the revision. */
  ghost predicate InfoOf(info: OperatorInfo, t: Trafo) {
    && Named(info, t)
    && (forall n :: n in info.inputInfos ==> info.inputInfos[n].operator == info.operator && info.inputInfos[n].inp.name == Some(n))
    && (forall n :: n in info.outputInfos ==> info.outputInfos[n].operator == info.operator && info.outputInfos[n].outp.name == Some(n))
  }

  /** Operators in the order of their creation, each for its revision. */
  ghost predicate OperatorsFor(infos: seq<OperatorInfo>, ts: seq<Trafo>) {
    && |infos| == |ts| && (forall k :: 0 <= k < |infos| ==> InfoOf(infos[k], ts[k]))
    && forall j, k :: 0 <= j < k < |infos| ==> infos[j].operator.id < infos[k].operator.id
  }

  /** Operators stand one behind the other, each further right and further down. */
  ghost predicate Arranged(c: WorkflowConstructor, infos: seq<OperatorInfo>)
    reads c`currentPosition, (set k | 0 <= k < |infos| :: infos[k].operator)`position
  {
    && c.currentPosition == PlaceAt(c.autoarrange, |infos|)
    && forall k :: 0 <= k < |infos| ==> infos[k].operator.position == PlaceAt(c.autoarrange, k)
  }

  ghost function PlaceAt(autoarrange: bool, k: nat): Position {
    if autoarrange then Position(700.0 * k as real, 300.0 * k as real) else ORIGIN
  }

  /** Right of the operator, 30 lower for each output above. */
  ghost predicate DrawnRight(o: Operator, c: Content)
    reads o`position
  {
    && c.operatorId == o.id
    && exists row: nat :: FirstOutput(o.outputs, c.connectorName, row)
         && c.position == Position(o.position.x + 450.0, o.position.y + 60.0 + 30.0 * row as real)
  }

  ghost predicate AllDrawnRight(infos: seq<OperatorInfo>, cs: seq<Content>)
    reads (set k | 0 <= k < |infos| :: infos[k].operator)`position
  {
    forall m :: 0 <= m < |cs| ==> exists k :: 0 <= k < |infos| && DrawnRight(infos[k].operator, cs[m])
  }

  ghost function Objects(infos: seq<OperatorInfo>): set<OperatorInput>
    reads (set k | 0 <= k < |infos| :: infos[k].operator)`inputs
  {
    set k, i | 0 <= k < |infos| && 0 <= i < |infos[k].operator.inputs| :: infos[k].operator.inputs[i]
  }

  /** The operators still are as they were created, with all inputs exposed. */
  ghost predicate Intact(infos: seq<OperatorInfo>, ts: seq<Trafo>)
    reads (set k | 0 <= k < |infos| :: infos[k].operator)`inputs, Objects(infos)
  {
    |infos| == |ts| && forall k :: 0 <= k < |infos| ==> Instance(infos[k].operator, ts[k])
  }

  ghost predicate Listed(c: WorkflowConstructor, infos: seq<OperatorInfo>)
    reads c`operatorInfosById
  {
    forall k :: 0 <= k < |infos| ==> infos[k].operator.id in c.operatorInfosById && c.operatorInfosById[infos[k].operator.id] == infos[k]
  }

  /** Operators stand where they should, unchanged and known under their ids, with their outputs beside them. */
  ghost predicate Standing(c: WorkflowConstructor, infos: seq<OperatorInfo>, ts: seq<Trafo>)
    reads c`currentPosition, c`contentOutputs, c`operatorInfosById
    reads (set k | 0 <= k < |infos| :: infos[k].operator)`position, (set k | 0 <= k < |infos| :: infos[k].operator)`inputs, Objects(infos)
  {
    Arranged(c, infos) && AllDrawnRight(infos, c.contentOutputs) && Intact(infos, ts) && Listed(c, infos)
  }

  ghost predicate IdsBelowNext(infos: seq<OperatorInfo>, nextId: Uuid) {
    forall k :: 0 <= k < |infos| ==> infos[k].operator.id < nextId
  }

  ghost predicate InfoKnown(ins: map<Uuid, OperatorInputInfo>, outs: map<Uuid, OperatorOutputInfo>, info: OperatorInfo) {
    && (forall n :: n in info.inputInfos ==> var i := info.inputInfos[n]; i.inp.id in ins && ins[i.inp.id] == i)
    && (forall n :: n in info.outputInfos ==> var o := info.outputInfos[n]; o.outp.id in outs && outs[o.outp.id] == o)
  }

  /** The infos that were handed out, all still known to the constructor. */
  ghost predicate Handed(c: WorkflowConstructor, infos: seq<OperatorInfo>)
    reads c`ins, c`outs
  {
    forall k :: 0 <= k < |infos| ==> InfoKnown(c.ins, c.outs, infos[k])
  }

  lemma InfoKnownLater(ins: map<Uuid, OperatorInputInfo>, outs: map<Uuid, OperatorOutputInfo>, ins': map<Uuid, OperatorInputInfo>, outs': map<Uuid, OperatorOutputInfo>, info: OperatorInfo)
    requires InfoKnown(ins, outs, info)
    requires forall id :: id in ins ==> id in ins' && ins'[id] == ins[id]
    requires forall id :: id in outs ==> id in outs' && outs'[id] == outs[id]
    ensures InfoKnown(ins', outs', info)
  {
  }

  lemma HandedMore(c: WorkflowConstructor, ins: map<Uuid, OperatorInputInfo>, outs: map<Uuid, OperatorOutputInfo>, infos: seq<OperatorInfo>, info: OperatorInfo)
    requires forall k :: 0 <= k < |infos| ==> InfoKnown(ins, outs, infos[k])
    requires forall id :: id in ins ==> id in c.ins && c.ins[id] == ins[id]
    requires forall id :: id in outs ==> id in c.outs && c.outs[id] == outs[id]
    requires InfoKnown(c.ins, c.outs, info)
    ensures Handed(c, infos + [info])
  {
    hide InfoKnown;
    forall k | 0 <= k < |infos| ensures InfoKnown(c.ins, c.outs, infos[k]) {
      InfoKnownLater(ins, outs, c.ins, c.outs, infos[k]);
    }
  }

  lemma FoundInput(c: WorkflowConstructor, infos: seq<OperatorInfo>, k: nat, n: Name)
    requires Handed(c, infos) && c.Valid() && c.Untouched()
    ensures FindInput(infos, k, n).Some? ==>
      var i := FindInput(infos, k, n).value;
      c.HasIn(i) && i in c.inSet && i.inp in c.shown
  {
    var found := FindInput(infos, k, n);
    if found.Some? {
      c.KnownInput(found.value);
    }
  }

  lemma FoundOutput(c: WorkflowConstructor, infos: seq<OperatorInfo>, k: nat, n: Name)
    requires Handed(c, infos) && c.Valid()
    ensures FindOutput(infos, k, n).Some? ==>
      var o := FindOutput(infos, k, n).value;
      c.HasOut(o) && o in c.outSet
  {
    var found := FindOutput(infos, k, n);
    if found.Some? {
      c.KnownOutput(found.value);
    }
  }

  lemma LinkIsStep(b: Board, l: Link, b': Board, ok: bool, isIdentifier: Name -> bool)
    requires KnownStart(b, l.start) && KnownEnd(b, l.end)
    requires ok <==> !b.ins[l.end.connectorId].blocked && !b.outs[l.start.connectorId].isTrafoOutput && ValidLink(l)
    requires b' == if ok then WithLink(b, l) else b
    ensures Step(b, AddLink(l), b', isIdentifier) && (ok <==> Accepts(b, AddLink(l), isIdentifier))
  {
    hide WithLink;
  }

  lemma InputPerformed(b: Board, r: Request, e: Entry, b': Board)
    requires (r.AddInput? || r.AddConstant?) && EntryFor(e, r) && Feedable(b, e, r.inp.connectorId) && b' == WithInput(b, e, r.inp.connectorId)
    ensures Performed(b, r, b')
  {
  }

  lemma OutputPerformed(b: Board, r: Request, e: Entry, b': Board)
    requires r.AddOutput? && EntryFor(e, r) && Drawable(b, e, r.outp.connectorId) && b' == WithOutput(b, e, r.outp.connectorId)
    ensures Performed(b, r, b')
  {
  }

  lemma OperatorPerformed(b: Board, operator: Uuid, b': Board, isIdentifier: Name -> bool)
    requires Extends(b, b', operator)
    ensures Step(b, AddOperator, b', isIdentifier) && b.nextId <= operator < b'.nextId
  {
  }

  lemma NothingPerformed(b: Board, isIdentifier: Name -> bool)
    ensures Step(b, Unknown, b, isIdentifier) && !Accepts(b, Unknown, isIdentifier)
  {
  }

  method PerformConnect(c: WorkflowConstructor, cmd: Command, infos: seq<OperatorInfo>, ghost ts: seq<Trafo>) returns (ok: bool, ghost r: Request)
    requires OperatorsFor(infos, ts)
    requires cmd.Connect? && c.Valid() && c.Untouched() && Handed(c, infos)
    modifies c`links, c`inStates, c`outStates, c.inSet`blocked, c.outSet`isLinkStart
    ensures c.Valid() && c.Untouched()
    ensures r == Asked(cmd, infos) && (ok <==> Accepts(old(c.Abstract()), r, c.isIdentifier))
    ensures Step(old(c.Abstract()), r, c.Abstract(), c.isIdentifier)
    ensures old(Standing(c, infos, ts)) ==> Standing(c, infos, ts)
  {
    hide WorkflowConstructor.Valid, WorkflowConstructor.Untouched, Handed, FindInput, FindOutput, WithLink, Step, Accepts;
    FoundOutput(c, infos, cmd.start, cmd.output);
    FoundInput(c, infos, cmd.end, cmd.inp);
    NothingPerformed(c.Abstract(), c.isIdentifier);
    var o, i := FindOutput(infos, cmd.start, cmd.output), FindInput(infos, cmd.end, cmd.inp);
    ok, r := false, Unknown;
    if o.Some? && i.Some? {
      c.KnownInput(i.value);
      c.KnownOutput(o.value);
      r := AddLink(InnerLink(o.value, i.value));
      ok := c.Link(o.value, i.value);
      LinkIsStep(old(c.Abstract()), r.link, c.Abstract(), ok, c.isIdentifier);
    }
  }

  method PerformInput(c: WorkflowConstructor, cmd: Command, infos: seq<OperatorInfo>, ghost ts: seq<Trafo>) returns (ok: bool, ghost r: Request)
    requires OperatorsFor(infos, ts)
    requires cmd.Input? && c.Valid() && c.Untouched() && Handed(c, infos)
    modifies c`nextId, c`entries, c`ioLinks, c`contentInputs, c`trafoInputs, c`inStates, c.inSet`blocked, c.shown`exposed
    ensures c.Valid() && c.Untouched()
    ensures r == Asked(cmd, infos) && (ok <==> Accepts(old(c.Abstract()), r, c.isIdentifier))
    ensures Step(old(c.Abstract()), r, c.Abstract(), c.isIdentifier)
    ensures old(Standing(c, infos, ts)) ==> Standing(c, infos, ts)
  {
    hide WorkflowConstructor.Valid, WorkflowConstructor.Untouched, Handed, FindInput, WithInput, Performed, Feedable, OperatorsFor, AllDrawnRight, Listed;
    FoundInput(c, infos, cmd.operator, cmd.inp);
    ok, r := false, Unknown;
    var found := FindInput(infos, cmd.operator, cmd.inp);
    if found.Some? {
      var i := found.value;
      c.KnownInput(i);
      r := AddInput(cmd.name, InputSlot(cmd.optional, cmd.defaultValue), LinkEnd(i));
      ok := c.Input(cmd.name, i, cmd.optional, cmd.defaultValue);
      if ok {
        InputFeedable(old(c.Abstract()), c.contentInputs[|c.contentInputs| - 1], cmd.name, r.slot, i);
        InputPerformed(old(c.Abstract()), r, InEntry(c.contentInputs[|c.contentInputs| - 1]), c.Abstract());
      }
    }
  }

  method PerformConstant(c: WorkflowConstructor, cmd: Command, infos: seq<OperatorInfo>, ghost ts: seq<Trafo>) returns (ok: bool, ghost r: Request)
    requires OperatorsFor(infos, ts)
    requires cmd.SetConstant? && c.Valid() && c.Untouched() && Handed(c, infos)
    modifies c`nextId, c`entries, c`ioLinks, c`constants, c`inStates, c.inSet`blocked, c.shown`exposed
    ensures c.Valid() && c.Untouched()
    ensures r == Asked(cmd, infos) && (ok <==> Accepts(old(c.Abstract()), r, c.isIdentifier))
    ensures Step(old(c.Abstract()), r, c.Abstract(), c.isIdentifier)
    ensures old(Standing(c, infos, ts)) ==> Standing(c, infos, ts)
  {
    hide WorkflowConstructor.Valid, WorkflowConstructor.Untouched, Handed, FindInput, WithInput, Performed, Feedable, OperatorsFor, AllDrawnRight, Listed;
    FoundInput(c, infos, cmd.operator, cmd.inp);
    ok, r := false, Unknown;
    var found := FindInput(infos, cmd.operator, cmd.inp);
    if found.Some? {
      var i := found.value;
      c.KnownInput(i);
      r := AddConstant(LinkEnd(i), cmd.value);
      ok := c.SetConstant(i, cmd.value);
      if ok {
        ConstantFeedable(old(c.Abstract()), c.constants[|c.constants| - 1], i, cmd.value);
        InputPerformed(old(c.Abstract()), r, ConstEntry(c.constants[|c.constants| - 1]), c.Abstract());
      }
    }
  }

  lemma OutputBeside(content: Content, id: Uuid, name: Name, o: OperatorOutputInfo, infos: seq<OperatorInfo>, k: nat)
    requires OutputContent(content, id, name, o) && k < |infos| && infos[k].operator == o.operator
    ensures DrawnRight(infos[k].operator, content) && EntryFor(OutEntry(content), AddOutput(name, LinkStart(o)))
  {
  }

  /** One more workflow output, drawn beside its operator. */
  ghost predicate OneMoreDrawn(c: WorkflowConstructor, infos: seq<OperatorInfo>, before: seq<Content>)
    reads c`contentOutputs, (set k | 0 <= k < |infos| :: infos[k].operator)`position
  {
    && |c.contentOutputs| == |before| + 1 && c.contentOutputs[..|before|] == before
    && exists k :: 0 <= k < |infos| && DrawnRight(infos[k].operator, c.contentOutputs[|before|])
  }

  lemma DrawnRightMore(infos: seq<OperatorInfo>, before: seq<Content>, c: WorkflowConstructor)
    requires OneMoreDrawn(c, infos, before) && AllDrawnRight(infos, before)
    ensures AllDrawnRight(infos, c.contentOutputs)
  {
    hide DrawnRight;
    assert forall m :: 0 <= m < |before| ==> c.contentOutputs[m] == before[m];
  }

  method PerformOutput(c: WorkflowConstructor, cmd: Command, infos: seq<OperatorInfo>, ghost ts: seq<Trafo>) returns (ok: bool, ghost r: Request)
    requires OperatorsFor(infos, ts)
    requires cmd.Output? && c.Valid() && c.Untouched() && Handed(c, infos)
    modifies c`nextId, c`entries, c`ioLinks, c`contentOutputs, c`trafoOutputs, c`outStates, c.outSet`isTrafoOutput
    ensures c.Valid() && c.Untouched()
    ensures r == Asked(cmd, infos) && (ok <==> Accepts(old(c.Abstract()), r, c.isIdentifier))
    ensures Step(old(c.Abstract()), r, c.Abstract(), c.isIdentifier)
    ensures if ok then OneMoreDrawn(c, infos, old(c.contentOutputs)) else c.contentOutputs == old(c.contentOutputs)
  {
    hide WorkflowConstructor.Valid, WorkflowConstructor.Untouched, Handed, WithOutput, Performed, DrawnRight, OutputContent, Named, EntryFor;
    FoundOutput(c, infos, cmd.operator, cmd.output);
    ok, r := false, Unknown;
    var found := FindOutput(infos, cmd.operator, cmd.output);
    if found.Some? {
      var o := found.value;
      c.KnownOutput(o);
      r := AddOutput(cmd.name, LinkStart(o));
      ok := c.Output(cmd.name, o);
      if ok {
        OutputDrawable(old(c.Abstract()), c.contentOutputs[|c.contentOutputs| - 1], cmd.name, o);
        OutputBeside(c.contentOutputs[|c.contentOutputs| - 1], old(c.nextId), cmd.name, o, infos, cmd.operator);
        OutputPerformed(old(c.Abstract()), r, OutEntry(c.contentOutputs[|c.contentOutputs| - 1]), c.Abstract());
      }
    }
  }

  method PerformOutputBeside(c: WorkflowConstructor, cmd: Command, infos: seq<OperatorInfo>, ghost ts: seq<Trafo>) returns (ok: bool, ghost r: Request)
    requires OperatorsFor(infos, ts)
    requires cmd.Output? && c.Valid() && c.Untouched() && Handed(c, infos)
    modifies c`nextId, c`entries, c`ioLinks, c`contentOutputs, c`trafoOutputs, c`outStates, c.outSet`isTrafoOutput
    ensures c.Valid() && c.Untouched()
    ensures r == Asked(cmd, infos) && (ok <==> Accepts(old(c.Abstract()), r, c.isIdentifier))
    ensures Step(old(c.Abstract()), r, c.Abstract(), c.isIdentifier)
    ensures old(Standing(c, infos, ts)) ==> Standing(c, infos, ts)
  {
    hide WorkflowConstructor.Valid, WorkflowConstructor.Untouched, Handed, Asked, Accepts, Step, OperatorsFor, DrawnRight;
    ok, r := PerformOutput(c, cmd, infos, ts);
    if ok && old(Standing(c, infos, ts)) {
      DrawnRightMore(infos, old(c.contentOutputs), c);
    }
  }

  lemma OperatorsMore(infos: seq<OperatorInfo>, ts: seq<Trafo>, info: OperatorInfo, t: Trafo)
    requires OperatorsFor(infos, ts) && InfoOf(info, t) && IdsBelowNext(infos, info.operator.id)
    ensures OperatorsFor(infos + [info], ts + [t])
  {
    hide InfoOf;
  }

  lemma StandingMore(c: WorkflowConstructor, infos: seq<OperatorInfo>, ts: seq<Trafo>, info: OperatorInfo, t: Trafo)
    requires AllDrawnRight(infos, c.contentOutputs) && Intact(infos, ts) && Instance(info.operator, t) && Listed(c, infos + [info])
    requires (forall k :: 0 <= k < |infos| ==> infos[k].operator.position == PlaceAt(c.autoarrange, k))
    requires info.operator.position == PlaceAt(c.autoarrange, |infos|) && c.currentPosition == PlaceAt(c.autoarrange, |infos| + 1)
    ensures Standing(c, infos + [info], ts + [t])
  {
    hide DrawnRight, Instance;
    var infos' := infos + [info];
    forall m | 0 <= m < |c.contentOutputs| ensures exists k :: 0 <= k < |infos'| && DrawnRight(infos'[k].operator, c.contentOutputs[m]) {
      var k :| 0 <= k < |infos| && DrawnRight(infos[k].operator, c.contentOutputs[m]);
      assert infos'[k] == infos[k];
    }
  }

  method PerformOp(c: WorkflowConstructor, trafo: Trafo, infos: seq<OperatorInfo>, ghost ts: seq<Trafo>) returns (infos': seq<OperatorInfo>)
    requires c.Valid() && c.Untouched() && Handed(c, infos)
    requires OperatorsFor(infos, ts) && IdsBelowNext(infos, c.nextId)
    modifies c
    ensures c.Valid() && c.Untouched() && Handed(c, infos')
    ensures OperatorsFor(infos', ts + [trafo]) && IdsBelowNext(infos', c.nextId) && |infos'| == |infos| + 1 && infos'[..|infos|] == infos
    ensures Step(old(c.Abstract()), AddOperator, c.Abstract(), c.isIdentifier)
    ensures fresh(c.inSet - old(c.inSet)) && fresh(c.outSet - old(c.outSet)) && fresh(c.shown - old(c.shown)) && fresh(c.Operators() - old(c.Operators()))
    ensures old(Standing(c, infos, ts)) ==> Standing(c, infos', ts + [trafo])
  {
    hide WorkflowConstructor.Valid, WorkflowConstructor.Untouched, Extends, Instance, Named, Performed, AllDrawnRight, Step, OperatorsFor;
    var info := c.Op(trafo);
    OperatorPerformed(old(c.Abstract()), info.operator.id, c.Abstract(), c.isIdentifier);
    infos' := infos + [info];
    OperatorsMore(infos, ts, info, trafo);
    HandedMore(c, old(c.ins), old(c.outs), infos, info);
    if old(Standing(c, infos, ts)) {
      StandingMore(c, infos, ts, info, trafo);
    }
  }

  lemma StepGrows(b: Board, r: Request, b': Board, isIdentifier: Name -> bool, infos: seq<OperatorInfo>)
    requires Step(b, r, b', isIdentifier) && IdsBelowNext(infos, b.nextId)
    ensures IdsBelowNext(infos, b'.nextId)
  {
    StepFlags(b, r, b', isIdentifier);
  }

  /** A call that creates no operator. */
  method PerformCall(c: WorkflowConstructor, cmd: Command, infos: seq<OperatorInfo>, ghost ts: seq<Trafo>) returns (ok: bool, ghost r: Request)
    requires OperatorsFor(infos, ts)
    requires !cmd.Op? && c.Valid() && c.Untouched() && Handed(c, infos)
    modifies c`nextId, c`entries, c`links, c`ioLinks, c`contentInputs, c`contentOutputs, c`trafoInputs, c`trafoOutputs, c`constants, c`inStates, c`outStates
    modifies c.inSet`blocked, c.outSet`isLinkStart, c.outSet`isTrafoOutput, c.shown`exposed
    ensures c.Valid() && c.Untouched()
    ensures r == Asked(cmd, infos) && (ok <==> Accepts(old(c.Abstract()), r, c.isIdentifier))
    ensures Step(old(c.Abstract()), r, c.Abstract(), c.isIdentifier)
    ensures old(Standing(c, infos, ts)) ==> Standing(c, infos, ts)
  {
    hide *;
    match cmd {
      case Connect(_, _, _, _) => ok, r := PerformConnect(c, cmd, infos, ts);
      case Input(_, _, _, _, _) => ok, r := PerformInput(c, cmd, infos, ts);
      case Output(_, _, _) => ok, r := PerformOutputBeside(c, cmd, infos, ts);
      case SetConstant(_, _, _) => ok, r := PerformConstant(c, cmd, infos, ts);
    }
  }

  /** One call; refused without effect on the board if an operator or a name in it does not exist. */
  method Perform(c: WorkflowConstructor, cmd: Command, infos: seq<OperatorInfo>, ghost ts: seq<Trafo>) returns (ok: bool, infos': seq<OperatorInfo>, ghost r: Request)
    requires c.Valid() && c.Untouched() && Handed(c, infos)
    requires OperatorsFor(infos, ts) && IdsBelowNext(infos, c.nextId)
    modifies c, c.inSet`blocked, c.outSet`isLinkStart, c.outSet`isTrafoOutput, c.shown`exposed
    ensures c.Valid() && c.Untouched() && Handed(c, infos')
    ensures OperatorsFor(infos', ts + if cmd.Op? then [cmd.trafo] else []) && IdsBelowNext(infos', c.nextId)
    ensures infos <= infos'
    ensures r == Asked(cmd, infos) && (ok <==> Accepts(old(c.Abstract()), r, c.isIdentifier))
    ensures Step(old(c.Abstract()), r, c.Abstract(), c.isIdentifier)
    ensures fresh(c.inSet - old(c.inSet)) && fresh(c.outSet - old(c.outSet)) && fresh(c.shown - old(c.shown)) && fresh(c.Operators() - old(c.Operators()))
    ensures old(Standing(c, infos, ts)) ==> Standing(c, infos', ts + if cmd.Op? then [cmd.trafo] else [])
  {
    hide WorkflowConstructor.Valid, WorkflowConstructor.Untouched, InfoKnown, OperatorsFor, IdsBelowNext, Step, Performed;
    infos' := infos;
    if cmd.Op? {
      ok, r := true, AddOperator;
      infos' := PerformOp(c, cmd.trafo, infos, ts);
    } else {
      ok, r := PerformCall(c, cmd, infos, ts);
    }
    StepGrows(old(c.Abstract()), r, c.Abstract(), c.isIdentifier, infos);
    assert ts + [] == ts;
  }

  lemma RunExtended(run: Run, r: Request, b: Board)
    requires IsRun(run) && Step(run.boards[|run.requests|], r, b, run.isIdentifier)
    ensures IsRun(Run(run.boards + [b], run.requests + [r], run.isIdentifier))
  {
    hide Step;
  }

  /** The commands, how they were answered, and the operators that were created belong to a run. */
  ghost predicate Answered(run: Run, cmds: seq<Command>, accepted: seq<bool>, infos: seq<OperatorInfo>) {
    && IsRun(run) && |run.requests| == |cmds| == |accepted| && OperatorsFor(infos, Revisions(cmds))
    && (forall k :: 0 <= k < |cmds| ==> AskedAt(run, cmds, infos, k))
    && (forall k :: 0 <= k < |cmds| ==> (accepted[k] <==> Accepted(run, k)))
  }

  /** Request k is what command k asks for of the operators there were. */
  ghost predicate AskedAt(run: Run, cmds: seq<Command>, infos: seq<OperatorInfo>, k: nat)
    requires k < |cmds| == |run.requests| < |run.boards|
  {
    var n := |Revisions(cmds[..k])|;
    n <= |infos| && run.requests[k] == Asked(cmds[k], infos[..n]) && OnBoard(run.boards[k], infos[..n])
  }

  /** The connectors of the operators are known. */
  ghost predicate OnBoard(b: Board, infos: seq<OperatorInfo>) {
    forall k :: 0 <= k < |infos| ==>
      && (forall n :: n in infos[k].inputInfos ==> KnownEnd(b, LinkEnd(infos[k].inputInfos[n])))
      && (forall n :: n in infos[k].outputInfos ==> KnownStart(b, LinkStart(infos[k].outputInfos[n])))
  }

  lemma HandedOnBoard(c: WorkflowConstructor, infos: seq<OperatorInfo>)
    requires c.Valid() && Handed(c, infos)
    ensures OnBoard(c.Abstract(), infos)
  {
    hide WorkflowConstructor.Valid;
    forall k | 0 <= k < |infos|
      ensures forall n :: n in infos[k].inputInfos ==> KnownEnd(c.Abstract(), LinkEnd(infos[k].inputInfos[n]))
      ensures forall n :: n in infos[k].outputInfos ==> KnownStart(c.Abstract(), LinkStart(infos[k].outputInfos[n]))
    {
      forall n | n in infos[k].inputInfos ensures KnownEnd(c.Abstract(), LinkEnd(infos[k].inputInfos[n])) {
        c.KnownInput(infos[k].inputInfos[n]);
      }
      forall n | n in infos[k].outputInfos ensures KnownStart(c.Abstract(), LinkStart(infos[k].outputInfos[n])) {
        c.KnownOutput(infos[k].outputInfos[n]);
      }
    }
  }

  lemma AnsweredMore(run: Run, cmds: seq<Command>, accepted: seq<bool>, infos: seq<OperatorInfo>, cmd: Command, r: Request, b: Board, ok: bool, infos': seq<OperatorInfo>)
    requires Answered(run, cmds, accepted, infos) && Step(run.boards[|run.requests|], r, b, run.isIdentifier)
    requires r == Asked(cmd, infos) && (ok <==> Accepts(run.boards[|run.requests|], r, run.isIdentifier))
    requires infos <= infos' && OperatorsFor(infos', Revisions(cmds + [cmd])) && OnBoard(run.boards[|run.requests|], infos)
    ensures Answered(Run(run.boards + [b], run.requests + [r], run.isIdentifier), cmds + [cmd], accepted + [ok], infos')
  {
    hide Step, Asked, Accepts, OnBoard;
    RunExtended(run, r, b);
    var run' := Run(run.boards + [b], run.requests + [r], run.isIdentifier);
    forall k | 0 <= k < |cmds| + 1 ensures AskedAt(run', cmds + [cmd], infos', k) {
      assert (cmds + [cmd])[..k] == cmds[..k] && cmds[..|cmds|] == cmds;
      if k < |cmds| {
        assert AskedAt(run, cmds, infos, k);
        assert infos'[..|Revisions(cmds[..k])|] == infos[..|Revisions(cmds[..k])|];
      } else {
        assert infos'[..|infos|] == infos;
      }
    }
  }

  /** Every workflow input is placed beside the operator input it feeds. */
  ghost predicate AllPlaced(c: WorkflowConstructor)
    reads *
  {
    forall k :: 0 <= k < |c.contentInputs| ==>
      && Known(c.operatorInfosById, c.contentInputs[k].operatorId, c.contentInputs[k].connectorName)
      && c.Placed(c.contentInputs[k])
  }

  ghost predicate InputFor(i: OperatorInput, e: Endpoint)
    reads i`exposed
  {
    i.name == e.name && i.dataType == e.dataType && i.inputType == KindOf(e.slot) && i.exposed
  }

  /** An operator for the revision with all inputs exposed, required ones first. */
  ghost predicate FinalInstance(o: Operator, t: Trafo)
    reads o`inputs, o.inputs
  {
    && |o.inputs| == |t.inputs| && |o.outputs| == |t.outputs|
    && (forall j :: 0 <= j < |o.outputs| ==> o.outputs[j].name == t.outputs[j].name && o.outputs[j].dataType == t.outputs[j].dataType)
    && exists places: seq<nat> :: InputsAt(o.inputs, t.inputs, places)
  }

  ghost predicate InputsAt(inputs: seq<OperatorInput>, ts: seq<Endpoint>, places: seq<nat>)
    reads inputs
  {
    && |places| == |inputs| == |ts|
    && (forall m :: 0 <= m < |places| ==> places[m] < |ts| && InputFor(inputs[m], ts[places[m]]))
    && forall m, n :: 0 <= m < n < |places| ==>
         places[m] != places[n] && if inputs[m].inputType == inputs[n].inputType then places[m] < places[n] else inputs[m].inputType.REQUIRED?
  }

  lemma OrderedInputs(o: Operator, before: seq<OperatorInput>, t: Trafo)
    requires o.inputs == Order(before, Kind) && |o.outputs| == |t.outputs|
    requires forall j :: 0 <= j < |o.outputs| ==> o.outputs[j].name == t.outputs[j].name && o.outputs[j].dataType == t.outputs[j].dataType
    requires |before| == |t.inputs| && forall j :: 0 <= j < |before| ==> InputFor(before[j], t.inputs[j])
    ensures FinalInstance(o, t)
  {
    var places := OrderPlaces(before, Kind);
    hide Order, InputFor;
    assert InputsAt(o.inputs, t.inputs, places);
  }

  ghost predicate AllFinal(infos: seq<OperatorInfo>, ts: seq<Trafo>)
    reads (set k | 0 <= k < |infos| :: infos[k].operator)`inputs, Objects(infos)
  {
    |infos| == |ts| && forall k :: 0 <= k < |infos| ==> FinalInstance(infos[k].operator, ts[k])
  }

  method Finish(c: WorkflowConstructor, infos: seq<OperatorInfo>, ghost ts: seq<Trafo>) returns (ok: bool)
    requires c.Valid() && c.Untouched() && Standing(c, infos, ts)
    modifies c`contentInputs, c.Operators()`inputs
    ensures ok && c.Valid() && c.Untouched() && c.Abstract() == old(c.Abstract()) && Arranged(c, infos)
    ensures AllPlaced(c) && AllDrawnRight(infos, c.contentOutputs) && AllFinal(infos, ts)
  {
    hide WorkflowConstructor.Valid, WorkflowConstructor.Untouched, WorkflowConstructor.Placed, Order, AllDrawnRight;
    ok := c.Finalize();
    forall k | 0 <= k < |infos| ensures FinalInstance(infos[k].operator, ts[k]) {
      assert c.Ordered(infos[k].operator.id, old(infos[k].operator.inputs));
      OrderedInputs(infos[k].operator, old(infos[k].operator.inputs), ts[k]);
    }
  }

  /** A construction from the first call to finalization, in which every refused call is caught. The boards
      in it are a run, and finalization does not fail. */
  method Construct(cmds: seq<Command>, isIdentifier: Name -> bool, autoarrange: bool)
    returns (c: WorkflowConstructor, accepted: seq<bool>, infos: seq<OperatorInfo>, finalized: bool, ghost run: Run)
    ensures fresh(c) && c.Valid() && c.Untouched()
    ensures Answered(run, cmds, accepted, infos) && run.isIdentifier == isIdentifier
    ensures c.Abstract() == run.boards[|cmds|]
    ensures Handed(c, infos) && Arranged(c, infos) && AllFinal(infos, Revisions(cmds)) && c.autoarrange == autoarrange
    ensures AllPlaced(c) && AllDrawnRight(infos, c.contentOutputs)
    ensures finalized
  {
    hide WorkflowConstructor.Valid, WorkflowConstructor.Untouched, Handed, Arranged, Standing, AllFinal, AllDrawnRight, AllPlaced, OperatorsFor, Answered, Step, IdsBelowNext, Accepts, Asked, OnBoard;
    c := new WorkflowConstructor(isIdentifier, autoarrange);
    accepted, infos := [], [];
    run := Run([c.Abstract()], [], isIdentifier);
    NothingAnswered(c, run);
    for k := 0 to |cmds|
      invariant c.Valid() && c.Untouched() && Handed(c, infos) && c.isIdentifier == isIdentifier
      invariant OperatorsFor(infos, Revisions(cmds[..k])) && IdsBelowNext(infos, c.nextId)
      invariant fresh(c.inSet) && fresh(c.outSet) && fresh(c.shown) && fresh(c.Operators())
      invariant Answered(run, cmds[..k], accepted, infos) && run.isIdentifier == isIdentifier && |run.boards| == k + 1 == |run.requests| + 1
      invariant run.boards[k] == c.Abstract()
      invariant Standing(c, infos, Revisions(cmds[..k])) && c.autoarrange == autoarrange
    {
      var ok, infos';
      ghost var r;
      assert cmds[..k + 1] == cmds[..k] + [cmds[k]] && cmds[..k + 1][..k] == cmds[..k];
      HandedOnBoard(c, infos);
      ok, infos', r := Perform(c, cmds[k], infos, Revisions(cmds[..k]));
      AnsweredMore(run, cmds[..k], accepted, infos, cmds[k], r, c.Abstract(), ok, infos');
      run := Run(run.boards + [c.Abstract()], run.requests + [r], isIdentifier);
      accepted, infos := accepted + [ok], infos';
    }
    assert cmds[..|cmds|] == cmds;
    finalized := Finish(c, infos, Revisions(cmds));
  }

  lemma NothingAnswered(c: WorkflowConstructor, run: Run)
    requires c.Abstract() == Board([], [], map[], map[], 0) && run == Run([c.Abstract()], [], run.isIdentifier) && c.currentPosition == ORIGIN && c.contentOutputs == []
    ensures Standing(c, [], []) && Answered(run, [], [], []) && Handed(c, []) && OperatorsFor([], []) && IdsBelowNext([], c.nextId)
  {
  }
}
