/** Whole constructions as they are written: which calls are accepted, and what they leave behind. */
module ConstructionRecords {
  import opened Wrappers
  import opened IOTypes
  import opened WorkflowConstruction
  import opened ConstructionRuns

  /** The accepted ones among the first n commands that meet a condition, in order. */
  ghost function Chosen(cmds: seq<Command>, accepted: seq<bool>, wanted: Command -> bool, n: nat): seq<Command>
    requires n <= |cmds| == |accepted|
  {
    if n == 0 then []
    else Chosen(cmds, accepted, wanted, n - 1) + if accepted[n - 1] && wanted(cmds[n - 1]) then [cmds[n - 1]] else []
  }

  const OpCalls: Command -> bool := (c: Command) => c.Op?
  const ConnectCalls: Command -> bool := (c: Command) => c.Connect?
  const InputCalls: Command -> bool := (c: Command) => c.Input?
  const OutputCalls: Command -> bool := (c: Command) => c.Output?
  const ConstantCalls: Command -> bool := (c: Command) => c.SetConstant?
  const OutsideCalls: Command -> bool := (c: Command) => c.Input? || c.Output? || c.SetConstant?

  // ----- which calls are accepted -----

  /** When call k is made there is an e-th operator, and its revision has an input of that name. */
  ghost predicate InputThere(cmds: seq<Command>, accepted: seq<bool>, k: nat, e: nat, n: Name)
    requires k <= |cmds| == |accepted|
  {
    var ops := Chosen(cmds, accepted, OpCalls, k);
    e < |ops| && ops[e].Op? && HasName(ops[e].trafo.inputs, n)
  }

  ghost predicate OutputThere(cmds: seq<Command>, accepted: seq<bool>, k: nat, s: nat, n: Name)
    requires k <= |cmds| == |accepted|
  {
    var ops := Chosen(cmds, accepted, OpCalls, k);
    s < |ops| && ops[s].Op? && HasName(ops[s].trafo.outputs, n)
  }

  /** The call connects the input. */
  ghost predicate ConnectsInput(c: Command, e: nat, n: Name) {
    match c
    case Connect(_, _, end, inp) => end == e && inp == n
    case Input(_, operator, inp, _, _) => operator == e && inp == n
    case SetConstant(operator, inp, _) => operator == e && inp == n
    case _ => false
  }

  ghost predicate InputTaken(cmds: seq<Command>, accepted: seq<bool>, k: nat, e: nat, n: Name)
    requires k <= |cmds| == |accepted|
  {
    exists m :: 0 <= m < k && accepted[m] && ConnectsInput(cmds[m], e, n)
  }

  ghost predicate OutputLinked(cmds: seq<Command>, accepted: seq<bool>, k: nat, s: nat, n: Name)
    requires k <= |cmds| == |accepted|
  {
    exists m :: 0 <= m < k && accepted[m] && cmds[m].Connect? && cmds[m].start == s && cmds[m].output == n
  }

  ghost predicate OutputDrawn(cmds: seq<Command>, accepted: seq<bool>, k: nat, s: nat, n: Name)
    requires k <= |cmds| == |accepted|
  {
    exists m :: 0 <= m < k && accepted[m] && cmds[m].Output? && cmds[m].operator == s && cmds[m].output == n
  }

  /** Equal data types, or one that allows any. */
  ghost predicate TypesMeet(infos: seq<OperatorInfo>, s: nat, output: Name, e: nat, inp: Name) {
    && s < |infos| && output in infos[s].outputInfos && e < |infos| && inp in infos[e].inputInfos
    && var o, i := infos[s].outputInfos[output].outp.dataType, infos[e].inputInfos[inp].inp.dataType;
       o == i || o.ANY? || i.ANY?
  }

  lemma OperatorsBy(run: Run, cmds: seq<Command>, accepted: seq<bool>, infos: seq<OperatorInfo>, k: nat)
    requires Answered(run, cmds, accepted, infos) && k <= |cmds|
    ensures var ops := Chosen(cmds, accepted, OpCalls, k);
      |ops| == |Revisions(cmds[..k])| <= |infos| && forall j :: 0 <= j < |ops| ==> ops[j].Op? && InfoOf(infos[j], ops[j].trafo)
  {
    hide Step, InfoOf, Accepts;
    OperatorsChosen(run, cmds, accepted, infos, k);
    RevisionsPrefix(cmds, k);
  }

  lemma {:induction false} OperatorsChosen(run: Run, cmds: seq<Command>, accepted: seq<bool>, infos: seq<OperatorInfo>, k: nat)
    requires Answered(run, cmds, accepted, infos) && k <= |cmds|
    ensures var ops := Chosen(cmds, accepted, OpCalls, k);
      |ops| == |Revisions(cmds[..k])| && forall j :: 0 <= j < |ops| ==> ops[j].Op? && ops[j].trafo == Revisions(cmds[..k])[j]
  {
    hide Step, OperatorsFor, OnBoard;
    if k > 0 {
      OperatorsChosen(run, cmds, accepted, infos, k - 1);
      assert cmds[..k][..k - 1] == cmds[..k - 1];
      if cmds[k - 1].Op? {
        assert AskedAt(run, cmds, infos, k - 1) && Accepted(run, k - 1);
      }
    }
  }

  lemma {:induction false} RevisionsPrefix(cmds: seq<Command>, k: nat)
    requires k <= |cmds|
    ensures Revisions(cmds[..k]) <= Revisions(cmds)
    decreases |cmds|
  {
    if k < |cmds| {
      RevisionsPrefix(cmds[..|cmds| - 1], k);
      assert cmds[..|cmds| - 1][..k] == cmds[..k];
    } else {
      assert cmds[..k] == cmds;
    }
  }

  /** What command k asks for is about the named connectors, if they are there. */
  ghost predicate AsksFor(run: Run, cmds: seq<Command>, accepted: seq<bool>, infos: seq<OperatorInfo>, k: nat)
    requires k < |cmds| == |accepted| == |run.requests| < |run.boards|
  {
    var r, b := run.requests[k], run.boards[k];
    match cmds[k]
    case Op(_) => r == AddOperator
    case Connect(s, output, e, inp) =>
      if OutputThere(cmds, accepted, k, s, output) && InputThere(cmds, accepted, k, e, inp) then
        s < |infos| && output in infos[s].outputInfos && e < |infos| && inp in infos[e].inputInfos
        && r == AddLink(InnerLink(infos[s].outputInfos[output], infos[e].inputInfos[inp])) && KnownStart(b, r.link.start) && KnownEnd(b, r.link.end)
      else r == Unknown
    case Input(name, e, inp, optional, defaultValue) =>
      if InputThere(cmds, accepted, k, e, inp) then
        e < |infos| && inp in infos[e].inputInfos
        && r.AddInput? && r.name == name && r.inp == LinkEnd(infos[e].inputInfos[inp]) && KnownEnd(b, r.inp)
      else r == Unknown
    case Output(name, s, output) =>
      if OutputThere(cmds, accepted, k, s, output) then
        s < |infos| && output in infos[s].outputInfos
        && r == AddOutput(name, LinkStart(infos[s].outputInfos[output])) && KnownStart(b, r.outp)
      else r == Unknown
    case SetConstant(e, inp, value) =>
      if InputThere(cmds, accepted, k, e, inp) then
        e < |infos| && inp in infos[e].inputInfos
        && r == AddConstant(LinkEnd(infos[e].inputInfos[inp]), value) && KnownEnd(b, r.inp)
      else r == Unknown
  }

  lemma AskedFor(run: Run, cmds: seq<Command>, accepted: seq<bool>, infos: seq<OperatorInfo>, k: nat)
    requires Answered(run, cmds, accepted, infos) && k < |cmds|
    ensures AsksFor(run, cmds, accepted, infos, k)
  {
    hide Step, Accepts, KnownStart, KnownEnd, Chosen, HasName, HasEndpoint;
    OperatorsBy(run, cmds, accepted, infos, k);
    assert AskedAt(run, cmds, infos, k);
    var known := infos[..|Revisions(cmds[..k])|];
    assert forall j :: 0 <= j < |known| ==> known[j] == infos[j];
  }

  /** Different inputs have different ids. */
  lemma InputById(c: WorkflowConstructor, infos: seq<OperatorInfo>, ts: seq<Trafo>, d: nat, m: Name, e: nat, n: Name)
    requires Handed(c, infos) && OperatorsFor(infos, ts)
    requires d < |infos| && m in infos[d].inputInfos && e < |infos| && n in infos[e].inputInfos
    requires infos[d].inputInfos[m].inp.id == infos[e].inputInfos[n].inp.id
    ensures d == e && m == n
  {
    assert InfoKnown(c.ins, c.outs, infos[d]) && InfoKnown(c.ins, c.outs, infos[e]);
    assert InfoOf(infos[d], ts[d]) && InfoOf(infos[e], ts[e]);
    assert infos[d].inputInfos[m] == infos[e].inputInfos[n];
  }

  lemma OutputById(c: WorkflowConstructor, infos: seq<OperatorInfo>, ts: seq<Trafo>, d: nat, m: Name, e: nat, n: Name)
    requires Handed(c, infos) && OperatorsFor(infos, ts)
    requires d < |infos| && m in infos[d].outputInfos && e < |infos| && n in infos[e].outputInfos
    requires infos[d].outputInfos[m].outp.id == infos[e].outputInfos[n].outp.id
    ensures d == e && m == n
  {
    assert InfoKnown(c.ins, c.outs, infos[d]) && InfoKnown(c.ins, c.outs, infos[e]);
    assert InfoOf(infos[d], ts[d]) && InfoOf(infos[e], ts[e]);
    assert infos[d].outputInfos[m] == infos[e].outputInfos[n];
  }

  lemma TakenExactly(c: WorkflowConstructor, run: Run, cmds: seq<Command>, accepted: seq<bool>, infos: seq<OperatorInfo>, k: nat, e: nat, n: Name)
    requires Handed(c, infos) && Answered(run, cmds, accepted, infos) && k <= |cmds| && e < |infos| && n in infos[e].inputInfos
    ensures TakenBefore(run, k, infos[e].inputInfos[n].inp.id) <==> InputTaken(cmds, accepted, k, e, n)
  {
    hide Step, Accepts, KnownStart, KnownEnd, InputThere, OutputThere, Handed, OperatorsFor, AskedAt;
    var id := infos[e].inputInfos[n].inp.id;
    forall m | 0 <= m < k && accepted[m] ensures Takes(run.requests[m], id) <==> ConnectsInput(cmds[m], e, n) {
      AskedFor(run, cmds, accepted, infos, m);
      assert Accepted(run, m) && !run.requests[m].Unknown? by {
        AcceptedKnownRequest(run, m);
      }
      var (d, l) := Connected(cmds[m]);
      if Takes(run.requests[m], id) {
        InputById(c, infos, Revisions(cmds), d, l, e, n);
      }
    }
    if TakenBefore(run, k, id) {
      var m :| 0 <= m < k && Accepted(run, m) && Takes(run.requests[m], id);
      assert accepted[m] && ConnectsInput(cmds[m], e, n);
    }
    if InputTaken(cmds, accepted, k, e, n) {
      var m :| 0 <= m < k && accepted[m] && ConnectsInput(cmds[m], e, n);
      assert Accepted(run, m) && Takes(run.requests[m], id);
    }
  }

  ghost function Connected(c: Command): (nat, Name) {
    match c
    case Connect(_, _, end, inp) => (end, inp)
    case Input(_, operator, inp, _, _) => (operator, inp)
    case SetConstant(operator, inp, _) => (operator, inp)
    case _ => (0, 0)
  }

  lemma AcceptedKnownRequest(run: Run, m: nat)
    requires |run.boards| == |run.requests| + 1 && Accepted(run, m)
    ensures !run.requests[m].Unknown?
  {
  }

  lemma LinkedExactly(c: WorkflowConstructor, run: Run, cmds: seq<Command>, accepted: seq<bool>, infos: seq<OperatorInfo>, k: nat, s: nat, n: Name)
    requires Handed(c, infos) && Answered(run, cmds, accepted, infos) && k <= |cmds| && s < |infos| && n in infos[s].outputInfos
    ensures StartedBefore(run, k, infos[s].outputInfos[n].outp.id) <==> OutputLinked(cmds, accepted, k, s, n)
    ensures DrawnBefore(run, k, infos[s].outputInfos[n].outp.id) <==> OutputDrawn(cmds, accepted, k, s, n)
  {
    hide Step, Accepts, KnownStart, KnownEnd, InputThere, OutputThere, Handed, OperatorsFor, AskedAt;
    var id := infos[s].outputInfos[n].outp.id;
    forall m | 0 <= m < k && accepted[m]
      ensures StartsAt(run.requests[m], id) <==> cmds[m].Connect? && cmds[m].start == s && cmds[m].output == n
      ensures DrawsFrom(run.requests[m], id) <==> cmds[m].Output? && cmds[m].operator == s && cmds[m].output == n
    {
      AskedFor(run, cmds, accepted, infos, m);
      assert Accepted(run, m) && !run.requests[m].Unknown? by {
        AcceptedKnownRequest(run, m);
      }
      if StartsAt(run.requests[m], id) {
        OutputById(c, infos, Revisions(cmds), cmds[m].start, cmds[m].output, s, n);
      }
      if DrawsFrom(run.requests[m], id) {
        OutputById(c, infos, Revisions(cmds), cmds[m].operator, cmds[m].output, s, n);
      }
    }
    assert forall m :: 0 <= m < k ==> (Accepted(run, m) <==> accepted[m]);
  }

  /** Read off the commands alone: a call is accepted exactly if the connectors it names are there, it is
      valid in itself, and no earlier accepted call connected the input, or made of the output what
      excludes it. */
  lemma CallAcceptedExactly(c: WorkflowConstructor, run: Run, cmds: seq<Command>, accepted: seq<bool>, infos: seq<OperatorInfo>, k: nat)
    requires Handed(c, infos) && Answered(run, cmds, accepted, infos) && k < |cmds|
    ensures accepted[k] <==>
      match cmds[k]
      case Op(_) => true
      case Connect(s, output, e, inp) =>
        && OutputThere(cmds, accepted, k, s, output) && InputThere(cmds, accepted, k, e, inp)
        && s != e && TypesMeet(infos, s, output, e, inp)
        && !InputTaken(cmds, accepted, k, e, inp) && !OutputDrawn(cmds, accepted, k, s, output)
      case Input(name, e, inp, _, _) =>
        InputThere(cmds, accepted, k, e, inp) && run.isIdentifier(name) && !InputTaken(cmds, accepted, k, e, inp)
      case Output(name, s, output) =>
        OutputThere(cmds, accepted, k, s, output) && run.isIdentifier(name) && !OutputLinked(cmds, accepted, k, s, output)
      case SetConstant(e, inp, _) =>
        InputThere(cmds, accepted, k, e, inp) && !InputTaken(cmds, accepted, k, e, inp)
  {
    hide Step, Accepts, KnownStart, KnownEnd, InputThere, OutputThere, InputTaken, OutputLinked, OutputDrawn, TakenBefore, StartedBefore, DrawnBefore, Handed, AskedAt;
    AskedFor(run, cmds, accepted, infos, k);
    AcceptedExactly(run, k);
    assert accepted[k] <==> Accepted(run, k);
    match cmds[k] {
      case Connect(s, output, e, inp) =>
        if OutputThere(cmds, accepted, k, s, output) && InputThere(cmds, accepted, k, e, inp) {
          TakenExactly(c, run, cmds, accepted, infos, k, e, inp);
          LinkedExactly(c, run, cmds, accepted, infos, k, s, output);
          OtherOperators(infos, Revisions(cmds), s, output, e, inp);
        }
      case Input(_, e, inp, _, _) =>
        if InputThere(cmds, accepted, k, e, inp) {
          TakenExactly(c, run, cmds, accepted, infos, k, e, inp);
        }
      case Output(_, s, output) =>
        if OutputThere(cmds, accepted, k, s, output) {
          LinkedExactly(c, run, cmds, accepted, infos, k, s, output);
        }
      case SetConstant(e, inp, _) =>
        if InputThere(cmds, accepted, k, e, inp) {
          TakenExactly(c, run, cmds, accepted, infos, k, e, inp);
        }
      case _ =>
    }
  }

  lemma OtherOperators(infos: seq<OperatorInfo>, ts: seq<Trafo>, s: nat, output: Name, e: nat, inp: Name)
    requires OperatorsFor(infos, ts) && s < |infos| && output in infos[s].outputInfos && e < |infos| && inp in infos[e].inputInfos
    ensures ValidLink(InnerLink(infos[s].outputInfos[output], infos[e].inputInfos[inp])) <==> s != e && TypesMeet(infos, s, output, e, inp)
  {
    assert InfoOf(infos[s], ts[s]) && InfoOf(infos[e], ts[e]);
    hide Named;
  }

  // ----- what each call leaves behind -----

  /** The input of that name of the k-th operator, under its id and with its type. */
  ghost predicate IsInputOf(infos: seq<OperatorInfo>, k: nat, n: Name, v: Vertex) {
    && k < |infos| && n in infos[k].inputInfos
    && v.operator == Some(infos[k].operator.id) && v.connectorName == Some(n)
    && v.connectorId == infos[k].inputInfos[n].inp.id && v.dataType == infos[k].inputInfos[n].inp.dataType
  }

  ghost predicate IsOutputOf(infos: seq<OperatorInfo>, k: nat, n: Name, v: Vertex) {
    && k < |infos| && n in infos[k].outputInfos
    && v.operator == Some(infos[k].operator.id) && v.connectorName == Some(n)
    && v.connectorId == infos[k].outputInfos[n].outp.id && v.dataType == infos[k].outputInfos[n].outp.dataType
  }

  ghost predicate LinkMade(infos: seq<OperatorInfo>, cmd: Command, l: Link) {
    cmd.Connect? && IsOutputOf(infos, cmd.start, cmd.output, l.start) && IsInputOf(infos, cmd.end, cmd.inp, l.end)
  }

  /** Under the given name it feeds the input; it has a default value, the given one, only if it is optional. */
  ghost predicate InputMade(infos: seq<OperatorInfo>, cmd: Command, i: Content) {
    && cmd.Input? && i.name == Some(cmd.name)
    && IsInputOf(infos, cmd.operator, cmd.inp, Vertex(Some(i.operatorId), i.connectorId, i.connectorName, i.dataType))
    && i.slot.Input? && (i.slot.inputType.OPTIONAL? <==> cmd.optional)
    && i.slot.value == if cmd.optional then cmd.defaultValue else None
  }

  ghost predicate OutputMade(infos: seq<OperatorInfo>, cmd: Command, o: Content) {
    && cmd.Output? && o.name == Some(cmd.name) && o.slot.Output?
    && IsOutputOf(infos, cmd.operator, cmd.output, Vertex(Some(o.operatorId), o.connectorId, o.connectorName, o.dataType))
  }

  ghost predicate ConstantMade(infos: seq<OperatorInfo>, cmd: Command, c: Constant) {
    && cmd.SetConstant? && c.value == cmd.value
    && IsInputOf(infos, cmd.operator, cmd.inp, Vertex(Some(c.operatorId), c.connectorId, c.connectorName, c.dataType))
  }

  /** The outer end has no operator and the name that was given, if any; the inner end is the connector. */
  ghost predicate IoLinkMade(infos: seq<OperatorInfo>, cmd: Command, l: Link) {
    && l.start.dataType == l.end.dataType
    && match cmd
       case Input(name, k, n, _, _) => IsInputOf(infos, k, n, l.end) && l.start.operator.None? && l.start.connectorName == Some(name)
       case SetConstant(k, n, _) => IsInputOf(infos, k, n, l.end) && l.start.operator.None? && l.start.connectorName.None?
       case Output(name, k, n) => IsOutputOf(infos, k, n, l.start) && l.end.operator.None? && l.end.connectorName == Some(name)
       case _ => false
  }

  ghost predicate EntryMade(infos: seq<OperatorInfo>, cmd: Command, e: Entry) {
    match e
    case InEntry(i) => InputMade(infos, cmd, i)
    case OutEntry(o) => OutputMade(infos, cmd, o)
    case ConstEntry(c) => ConstantMade(infos, cmd, c)
  }

  // ----- the lists of a board -----

  ghost predicate LinksMade(infos: seq<OperatorInfo>, cmds: seq<Command>, ls: seq<Link>) {
    |ls| == |cmds| && forall k :: 0 <= k < |ls| ==> LinkMade(infos, cmds[k], ls[k])
  }

  ghost predicate InputsMade(infos: seq<OperatorInfo>, cmds: seq<Command>, cs: seq<Content>) {
    |cs| == |cmds| && forall k :: 0 <= k < |cs| ==> InputMade(infos, cmds[k], cs[k])
  }

  ghost predicate OutputsMade(infos: seq<OperatorInfo>, cmds: seq<Command>, cs: seq<Content>) {
    |cs| == |cmds| && forall k :: 0 <= k < |cs| ==> OutputMade(infos, cmds[k], cs[k])
  }

  ghost predicate ConstantsMade(infos: seq<OperatorInfo>, cmds: seq<Command>, cs: seq<Constant>) {
    |cs| == |cmds| && forall k :: 0 <= k < |cs| ==> ConstantMade(infos, cmds[k], cs[k])
  }

  ghost predicate IoLinksMade(infos: seq<OperatorInfo>, cmds: seq<Command>, ls: seq<Link>) {
    |ls| == |cmds| && forall k :: 0 <= k < |ls| ==> IoLinkMade(infos, cmds[k], ls[k])
  }

  /** The io interface repeats id, name, type and slot of the content entries. */
  ghost predicate Mirrors(ts: seq<Endpoint>, cs: seq<Content>) {
    |ts| == |cs| && forall k :: 0 <= k < |ts| ==>
      ts[k].id == cs[k].id && ts[k].name == cs[k].name && ts[k].dataType == cs[k].dataType && ts[k].slot == cs[k].slot
  }

  ghost predicate InputSideMade(es: seq<Entry>, cmds: seq<Command>, accepted: seq<bool>, infos: seq<OperatorInfo>, n: nat)
    requires n <= |cmds| == |accepted|
  {
    InputsMade(infos, Chosen(cmds, accepted, InputCalls, n), Inputs(es)) && Mirrors(TrafoInputs(es), Inputs(es))
  }

  ghost predicate OutputSideMade(es: seq<Entry>, cmds: seq<Command>, accepted: seq<bool>, infos: seq<OperatorInfo>, n: nat)
    requires n <= |cmds| == |accepted|
  {
    OutputsMade(infos, Chosen(cmds, accepted, OutputCalls, n), Outputs(es)) && Mirrors(TrafoOutputs(es), Outputs(es))
  }

  /** The lists of entries after the first n commands. */
  ghost predicate EntriesMade(es: seq<Entry>, cmds: seq<Command>, accepted: seq<bool>, infos: seq<OperatorInfo>, n: nat)
    requires n <= |cmds| == |accepted|
  {
    && InputSideMade(es, cmds, accepted, infos, n) && OutputSideMade(es, cmds, accepted, infos, n)
    && ConstantsMade(infos, Chosen(cmds, accepted, ConstantCalls, n), Constants(es))
    && IoLinksMade(infos, Chosen(cmds, accepted, OutsideCalls, n), Links(es))
  }

  // ----- one step -----

  /** An accepted command is about connectors of operators that there are, also later. */
  lemma AcceptedMade(run: Run, cmds: seq<Command>, accepted: seq<bool>, infos: seq<OperatorInfo>, n: nat)
    requires Answered(run, cmds, accepted, infos) && n < |cmds| && accepted[n]
    ensures cmds[n].Connect? ==> run.requests[n].AddLink? && LinkMade(infos, cmds[n], run.requests[n].link)
    ensures forall e :: EntryFor(e, run.requests[n]) ==> EntryMade(infos, cmds[n], e)
    ensures cmds[n].Input? <==> run.requests[n].AddInput?
    ensures cmds[n].Output? <==> run.requests[n].AddOutput?
    ensures cmds[n].SetConstant? <==> run.requests[n].AddConstant?
    ensures cmds[n].Connect? <==> run.requests[n].AddLink?
  {
    hide Step, Named, HasName;
    assert AskedAt(run, cmds, infos, n);
    var known := infos[..|Revisions(cmds[..n])|];
    assert run.requests[n] == Asked(cmds[n], known);
    assert Accepts(run.boards[n], run.requests[n], run.isIdentifier);
    assert forall k :: 0 <= k < |known| ==> known[k] == infos[k] && InfoOf(infos[k], Revisions(cmds)[k]);
  }

  lemma InputSideMore(es: seq<Entry>, e: Entry, cmds: seq<Command>, accepted: seq<bool>, infos: seq<OperatorInfo>, n: nat)
    requires n < |cmds| == |accepted| && accepted[n] && InputSideMade(es, cmds, accepted, infos, n) && EntryMade(infos, cmds[n], e)
    ensures InputSideMade(es + [e], cmds, accepted, infos, n + 1)
  {
    EntryLinkMade(infos, cmds[n], e);
    hide InputMade, Inputs, TrafoInputs;
    EntriesAppend(es, e);
  }

  lemma OutputSideMore(es: seq<Entry>, e: Entry, cmds: seq<Command>, accepted: seq<bool>, infos: seq<OperatorInfo>, n: nat)
    requires n < |cmds| == |accepted| && accepted[n] && OutputSideMade(es, cmds, accepted, infos, n) && EntryMade(infos, cmds[n], e)
    ensures OutputSideMade(es + [e], cmds, accepted, infos, n + 1)
  {
    EntryLinkMade(infos, cmds[n], e);
    hide OutputMade, Outputs, TrafoOutputs;
    EntriesAppend(es, e);
  }

  lemma EntriesMadeMore(es: seq<Entry>, e: Entry, cmds: seq<Command>, accepted: seq<bool>, infos: seq<OperatorInfo>, n: nat)
    requires n < |cmds| == |accepted| && accepted[n] && EntriesMade(es, cmds, accepted, infos, n)
    requires EntryMade(infos, cmds[n], e)
    ensures EntriesMade(es + [e], cmds, accepted, infos, n + 1)
  {
    InputSideMore(es, e, cmds, accepted, infos, n);
    OutputSideMore(es, e, cmds, accepted, infos, n);
    EntryLinkMade(infos, cmds[n], e);
    hide InputSideMade, OutputSideMade, ConstantMade, IoLinkMade, EntryLink, Links, Constants;
    EntriesAppend(es, e);
  }

  lemma EntryLinkMade(infos: seq<OperatorInfo>, cmd: Command, e: Entry)
    requires EntryMade(infos, cmd, e)
    ensures IoLinkMade(infos, cmd, EntryLink(e))
    ensures cmd.Input? <==> e.InEntry?
    ensures cmd.Output? <==> e.OutEntry?
    ensures cmd.SetConstant? <==> e.ConstEntry?
  {
    hide IsInputOf, IsOutputOf;
  }

  lemma EntriesMadeSame(es: seq<Entry>, cmds: seq<Command>, accepted: seq<bool>, infos: seq<OperatorInfo>, n: nat)
    requires n < |cmds| == |accepted| && EntriesMade(es, cmds, accepted, infos, n)
    requires accepted[n] ==> !OutsideCalls(cmds[n])
    ensures EntriesMade(es, cmds, accepted, infos, n + 1)
  {
  }

  lemma {:induction false} RunLinksMade(run: Run, cmds: seq<Command>, accepted: seq<bool>, infos: seq<OperatorInfo>, n: nat)
    requires Answered(run, cmds, accepted, infos) && n <= |cmds|
    ensures LinksMade(infos, Chosen(cmds, accepted, ConnectCalls, n), run.boards[n].links)
  {
    hide Step, Accepts, EntryFor, LinkMade, EntryMade, Asked, AskedAt, OperatorsFor;
    if n > 0 {
      RunLinksMade(run, cmds, accepted, infos, n - 1);
      StepRecords(run.boards[n - 1], run.requests[n - 1], run.boards[n], run.isIdentifier);
      assert accepted[n - 1] <==> Accepted(run, n - 1);
      if accepted[n - 1] {
        AcceptedMade(run, cmds, accepted, infos, n - 1);
      }
    }
  }

  lemma {:induction false} RunEntriesMade(run: Run, cmds: seq<Command>, accepted: seq<bool>, infos: seq<OperatorInfo>, n: nat)
    requires Answered(run, cmds, accepted, infos) && n <= |cmds|
    ensures EntriesMade(run.boards[n].entries, cmds, accepted, infos, n)
  {
    hide Step, EntryMade, AskedAt, OperatorsFor, Accepts;
    if n == 0 {
      NoEntries(run);
    } else {
      hide EntriesMade;
      RunEntriesMade(run, cmds, accepted, infos, n - 1);
      var es := run.boards[n - 1].entries;
      if accepted[n - 1] && OutsideCalls(cmds[n - 1]) {
        var e := EntryStep(run, cmds, accepted, infos, n - 1);
        EntriesMadeMore(es, e, cmds, accepted, infos, n - 1);
      } else {
        NoEntryStep(run, cmds, accepted, infos, n - 1);
        EntriesMadeSame(es, cmds, accepted, infos, n - 1);
      }
    }
  }

  lemma NoEntries(run: Run)
    requires IsRun(run)
    ensures run.boards[0].entries == []
  {
  }

  lemma EntryStep(run: Run, cmds: seq<Command>, accepted: seq<bool>, infos: seq<OperatorInfo>, n: nat) returns (e: Entry)
    requires Answered(run, cmds, accepted, infos) && n < |cmds| && accepted[n] && OutsideCalls(cmds[n])
    ensures run.boards[n + 1].entries == run.boards[n].entries + [e] && EntryMade(infos, cmds[n], e)
  {
    hide Step, Accepts, EntryFor, EntryMade, LinkMade, Asked, AskedAt, OperatorsFor;
    assert Accepted(run, n);
    StepRecords(run.boards[n], run.requests[n], run.boards[n + 1], run.isIdentifier);
    AcceptedMade(run, cmds, accepted, infos, n);
    e :| EntryFor(e, run.requests[n]) && run.boards[n + 1].entries == run.boards[n].entries + [e];
  }

  lemma NoEntryStep(run: Run, cmds: seq<Command>, accepted: seq<bool>, infos: seq<OperatorInfo>, n: nat)
    requires Answered(run, cmds, accepted, infos) && n < |cmds| && !(accepted[n] && OutsideCalls(cmds[n]))
    ensures run.boards[n + 1].entries == run.boards[n].entries
  {
    hide Step, Accepts, EntryFor, EntryMade, LinkMade, Asked, AskedAt, OperatorsFor;
    assert accepted[n] <==> Accepted(run, n);
    StepRecords(run.boards[n], run.requests[n], run.boards[n + 1], run.isIdentifier);
    if accepted[n] {
      AcceptedMade(run, cmds, accepted, infos, n);
    }
  }

  // ----- the whole construction -----

  /** The workflow input is drawn left of the operator it feeds, 30 lower for each input shown above. */
  ghost predicate DrawnBeside(o: Operator, c: Content)
    reads o, o.inputs
  {
    exists row: nat :: FirstAt(Exposed(o.inputs), c.connectorName, row)
      && c.position == Position(o.position.x - 270.0, o.position.y + 60.0 + 30.0 * row as real)
  }

  lemma {:induction false} UnplacedAt(cs: seq<Content>, k: nat)
    requires k < |cs|
    ensures |Unplaced(cs)| == |cs| && Unplaced(cs)[k] == cs[k].(position := ORIGIN)
  {
    UnplacedLength(cs[..|cs| - 1]);
    if k < |cs| - 1 {
      UnplacedAt(cs[..|cs| - 1], k);
    }
  }

  /** Places do not matter for what is recorded about workflow inputs. */
  lemma UnplacedInputs(infos: seq<OperatorInfo>, calls: seq<Command>, cs: seq<Content>, ts: seq<Endpoint>)
    requires InputsMade(infos, calls, Unplaced(cs)) && Mirrors(ts, Unplaced(cs))
    ensures InputsMade(infos, calls, cs) && Mirrors(ts, cs)
  {
    hide IsInputOf, Unplaced;
    UnplacedLength(cs);
    forall k | 0 <= k < |cs| ensures Unplaced(cs)[k] == cs[k].(position := ORIGIN) {
      UnplacedAt(cs, k);
    }
  }

  lemma {:induction false} UnplacedLength(cs: seq<Content>)
    ensures |Unplaced(cs)| == |cs|
  {
    if cs != [] {
      UnplacedLength(cs[..|cs| - 1]);
    }
  }

  lemma InputDrawn(c: WorkflowConstructor, infos: seq<OperatorInfo>, cmd: Command, i: Content)
    requires c.Valid() && Handed(c, infos) && i in c.contentInputs && InputMade(infos, cmd, i)
    requires exists ts :: OperatorsFor(infos, ts)
    requires Known(c.operatorInfosById, i.operatorId, i.connectorName) && c.Placed(i)
    ensures DrawnBeside(infos[cmd.operator].operator, i)
  {
    assert InfoKnown(c.ins, c.outs, infos[cmd.operator]);
    var info := infos[cmd.operator].inputInfos[cmd.inp];
    assert c.ins[info.inp.id] == info;
    assert Known(c.operatorInfosById, info.operator.id, info.inp.name);
    assert c.operatorInfosById[i.operatorId].operator == infos[cmd.operator].operator;
  }

  /** After a construction there are exactly the links, inputs, outputs and constants of the calls that
      were accepted, in their order, each about the connectors the call names. */
  lemma ConstructionRecorded(c: WorkflowConstructor, run: Run, cmds: seq<Command>, accepted: seq<bool>, infos: seq<OperatorInfo>)
    requires c.Valid() && Answered(run, cmds, accepted, infos) && c.Abstract() == run.boards[|cmds|]
    ensures LinksMade(infos, Chosen(cmds, accepted, ConnectCalls, |cmds|), c.links)
    ensures InputsMade(infos, Chosen(cmds, accepted, InputCalls, |cmds|), c.contentInputs) && Mirrors(c.trafoInputs, c.contentInputs)
    ensures OutputsMade(infos, Chosen(cmds, accepted, OutputCalls, |cmds|), c.contentOutputs) && Mirrors(c.trafoOutputs, c.contentOutputs)
    ensures ConstantsMade(infos, Chosen(cmds, accepted, ConstantCalls, |cmds|), c.constants)
    ensures IoLinksMade(infos, Chosen(cmds, accepted, OutsideCalls, |cmds|), c.ioLinks)
  {
    hide Step, LinksMade, InputsMade, Mirrors, IoLinksMade, OutputsMade, ConstantsMade, Links, Inputs, Outputs, Constants, TrafoInputs, TrafoOutputs;
    hide Consistent, Registered, Traceable, InsAgree, OutsAgree;
    RunLinksMade(run, cmds, accepted, infos, |cmds|);
    RunEntriesMade(run, cmds, accepted, infos, |cmds|);
    UnplacedInputs(infos, Chosen(cmds, accepted, InputCalls, |cmds|), c.contentInputs, c.trafoInputs);
  }

  lemma OutputDrawnRight(infos: seq<OperatorInfo>, ts: seq<Trafo>, cmd: Command, o: Content)
    requires OperatorsFor(infos, ts) && OutputMade(infos, cmd, o)
    requires exists k :: 0 <= k < |infos| && DrawnRight(infos[k].operator, o)
    ensures DrawnRight(infos[cmd.operator].operator, o)
  {
    hide InfoOf;
    var k :| 0 <= k < |infos| && DrawnRight(infos[k].operator, o);
    assert infos[k].operator.id == infos[cmd.operator].operator.id;
  }

  /** In the end every operator has its place, and every workflow input and output is drawn beside the
      operator that the call for it names. */
  lemma ConstructionDrawn(c: WorkflowConstructor, run: Run, cmds: seq<Command>, accepted: seq<bool>, infos: seq<OperatorInfo>)
    requires c.Valid() && Handed(c, infos) && Arranged(c, infos) && AllPlaced(c) && AllDrawnRight(infos, c.contentOutputs)
    requires Answered(run, cmds, accepted, infos) && c.Abstract() == run.boards[|cmds|]
    ensures forall k :: 0 <= k < |infos| ==>
      infos[k].operator.position == if c.autoarrange then Position(700.0 * k as real, 300.0 * k as real) else ORIGIN
    ensures var calls := Chosen(cmds, accepted, InputCalls, |cmds|);
      |calls| == |c.contentInputs| && forall k :: 0 <= k < |calls| ==>
        calls[k].Input? && calls[k].operator < |infos| && DrawnBeside(infos[calls[k].operator].operator, c.contentInputs[k])
    ensures var calls := Chosen(cmds, accepted, OutputCalls, |cmds|);
      |calls| == |c.contentOutputs| && forall k :: 0 <= k < |calls| ==>
        calls[k].Output? && calls[k].operator < |infos| && DrawnRight(infos[calls[k].operator].operator, c.contentOutputs[k])
  {
    hide WorkflowConstructor.Valid, Chosen, DrawnBeside, DrawnRight, Handed, Known, WorkflowConstructor.Placed;
    var calls, cs := Chosen(cmds, accepted, InputCalls, |cmds|), c.contentInputs;
    ConstructionRecorded(c, run, cmds, accepted, infos);
    forall k | 0 <= k < |calls| ensures calls[k].Input? && calls[k].operator < |infos| && DrawnBeside(infos[calls[k].operator].operator, cs[k]) {
      InputDrawn(c, infos, calls[k], cs[k]);
    }
    var outputCalls := Chosen(cmds, accepted, OutputCalls, |cmds|);
    forall k | 0 <= k < |outputCalls|
      ensures outputCalls[k].Output? && outputCalls[k].operator < |infos| && DrawnRight(infos[outputCalls[k].operator].operator, c.contentOutputs[k])
    {
      OutputDrawnRight(infos, Revisions(cmds), outputCalls[k], c.contentOutputs[k]);
    }
  }

  /** There is one operator for each call for one, in order, for its revision: with all its inputs exposed,
      required ones first, and its outputs; and infos for the names of all of them. */
  lemma ConstructionOperators(run: Run, cmds: seq<Command>, accepted: seq<bool>, infos: seq<OperatorInfo>)
    requires Answered(run, cmds, accepted, infos) && AllFinal(infos, Revisions(cmds))
    ensures var ops := Chosen(cmds, accepted, OpCalls, |cmds|);
      |ops| == |infos| && forall k :: 0 <= k < |infos| ==>
        ops[k].Op? && FinalInstance(infos[k].operator, ops[k].trafo) && Named(infos[k], ops[k].trafo)
  {
    hide Step, Accepts, FinalInstance, HasName, HasEndpoint;
    OperatorsBy(run, cmds, accepted, infos, |cmds|);
    OperatorsChosen(run, cmds, accepted, infos, |cmds|);
    assert cmds[..|cmds|] == cmds;
  }
}
