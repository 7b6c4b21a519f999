/** Building workflows in code: operators are created from revisions, their inputs and outputs are
    linked, exposed as workflow inputs and outputs, or set to constants. */
module WorkflowConstruction {
  import opened Wrappers
  import opened IOTypes
  import opened InputOrdering

  datatype OperatorOutput = OperatorOutput(id: Uuid, name: Option<Name>, dataType: DataType)

  datatype Link = Link(start: Vertex, end: Vertex)

  class OperatorInput {
    const id: Uuid
    const name: Option<Name>
    const dataType: DataType
    const inputType: InputType
    var exposed: bool

    constructor (id: Uuid, t: Endpoint)
      ensures this.id == id && name == t.name && dataType == t.dataType && inputType == KindOf(t.slot) && exposed
    {
      this.id, name, dataType, inputType, exposed := id, t.name, t.dataType, KindOf(t.slot), true;
    }
  }

  class Operator {
    const id: Uuid
    const outputs: seq<OperatorOutput>
    var position: Position
    var inputs: seq<OperatorInput>

    constructor (id: Uuid, inputs: seq<OperatorInput>, outputs: seq<OperatorOutput>)
      ensures this.id == id && this.inputs == inputs && this.outputs == outputs && position == ORIGIN
    {
      this.id, this.inputs, this.outputs, position := id, inputs, outputs, ORIGIN;
    }
  }

  class OperatorInputInfo {
    const operator: Operator
    const inp: OperatorInput
    var blocked: bool

    constructor (operator: Operator, inp: OperatorInput)
      ensures this.operator == operator && this.inp == inp && !blocked
    {
      this.operator, this.inp, blocked := operator, inp, false;
    }
  }

  class OperatorOutputInfo {
    const operator: Operator
    const outp: OperatorOutput
    var isLinkStart: bool
    var isTrafoOutput: bool

    constructor (operator: Operator, outp: OperatorOutput)
      ensures this.operator == operator && this.outp == outp && !isLinkStart && !isTrafoOutput
    {
      this.operator, this.outp, isLinkStart, isTrafoOutput := operator, outp, false, false;
    }
  }

  datatype OperatorInfo = OperatorInfo(operator: Operator, inputInfos: map<Name, OperatorInputInfo>, outputInfos: map<Name, OperatorOutputInfo>)

  // ----- links -----

  function LinkStart(o: OperatorOutputInfo): Vertex {
    Vertex(Some(o.operator.id), o.outp.id, o.outp.name, o.outp.dataType)
  }

  function LinkEnd(i: OperatorInputInfo): Vertex {
    Vertex(Some(i.operator.id), i.inp.id, i.inp.name, i.inp.dataType)
  }

  function InnerLink(o: OperatorOutputInfo, i: OperatorInputInfo): Link {
    Link(LinkStart(o), LinkEnd(i))
  }

  /** Other links are refused by their own validation. */
  predicate ValidLink(l: Link) {
    && (l.start.dataType == l.end.dataType || l.start.dataType.ANY? || l.end.dataType.ANY?)
    && l.start.operator != l.end.operator
  }

  /** How many links end at a connector of an operator. */
  function Ends(links: seq<Link>, operator: Uuid, connector: Uuid): nat {
    if links == [] then 0
    else
      var l := links[|links| - 1];
      Ends(links[..|links| - 1], operator, connector) +
      if l.end.operator == Some(operator) && l.end.connectorId == connector then 1 else 0
  }

  function Starts(links: seq<Link>, operator: Uuid, connector: Uuid): nat {
    if links == [] then 0
    else
      var l := links[|links| - 1];
      Starts(links[..|links| - 1], operator, connector) +
      if l.start.operator == Some(operator) && l.start.connectorId == connector then 1 else 0
  }

  lemma CountAppend(links: seq<Link>, l: Link, operator: Uuid, connector: Uuid)
    ensures Ends(links + [l], operator, connector) == Ends(links, operator, connector) +
      if l.end.operator == Some(operator) && l.end.connectorId == connector then 1 else 0
    ensures Starts(links + [l], operator, connector) == Starts(links, operator, connector) +
      if l.start.operator == Some(operator) && l.start.connectorId == connector then 1 else 0
  {
    assert (links + [l])[..|links|] == links;
  }

  // ----- what was asked for -----

  /** The calls that connected something to the outside, in order. */
  datatype Entry = InEntry(i: Content) | OutEntry(o: Content) | ConstEntry(c: Constant)

  function EntryId(e: Entry): Uuid {
    match e case InEntry(i) => i.id case OutEntry(o) => o.id case ConstEntry(c) => c.id
  }

  /** The link an entry stands for: its outer end carries the entry's id and no operator. */
  function EntryLink(e: Entry): Link {
    match e
    case InEntry(i) =>
      Link(Vertex(None, i.id, i.name, i.dataType), Vertex(Some(i.operatorId), i.connectorId, i.connectorName, i.dataType))
    case OutEntry(o) =>
      Link(Vertex(Some(o.operatorId), o.connectorId, o.connectorName, o.dataType), Vertex(None, o.id, o.name, o.dataType))
    case ConstEntry(c) =>
      Link(Vertex(None, c.id, None, c.dataType), Vertex(Some(c.operatorId), c.connectorId, c.connectorName, c.dataType))
  }

  function Links(es: seq<Entry>): seq<Link> {
    if es == [] then [] else Links(es[..|es| - 1]) + [EntryLink(es[|es| - 1])]
  }

  function Inputs(es: seq<Entry>): seq<Content> {
    if es == [] then [] else Inputs(es[..|es| - 1]) + if es[|es| - 1].InEntry? then [es[|es| - 1].i] else []
  }

  function Outputs(es: seq<Entry>): seq<Content> {
    if es == [] then [] else Outputs(es[..|es| - 1]) + if es[|es| - 1].OutEntry? then [es[|es| - 1].o] else []
  }

  function Constants(es: seq<Entry>): seq<Constant> {
    if es == [] then [] else Constants(es[..|es| - 1]) + if es[|es| - 1].ConstEntry? then [es[|es| - 1].c] else []
  }

  function TrafoInputs(es: seq<Entry>): seq<Endpoint> {
    if es == [] then []
    else TrafoInputs(es[..|es| - 1]) + match es[|es| - 1] case InEntry(i) => [Endpoint(i.id, i.name, i.dataType, i.slot)] case _ => []
  }

  function TrafoOutputs(es: seq<Entry>): seq<Endpoint> {
    if es == [] then []
    else TrafoOutputs(es[..|es| - 1]) + match es[|es| - 1] case OutEntry(o) => [Endpoint(o.id, o.name, o.dataType, o.slot)] case _ => []
  }

  lemma EntriesAppend(es: seq<Entry>, e: Entry)
    ensures var es' := es + [e];
      && Links(es') == Links(es) + [EntryLink(e)]
      && Inputs(es') == Inputs(es) + (if e.InEntry? then [e.i] else [])
      && Outputs(es') == Outputs(es) + (if e.OutEntry? then [e.o] else [])
      && Constants(es') == Constants(es) + (if e.ConstEntry? then [e.c] else [])
      && TrafoInputs(es') == TrafoInputs(es) + (match e case InEntry(i) => [Endpoint(i.id, i.name, i.dataType, i.slot)] case _ => [])
      && TrafoOutputs(es') == TrafoOutputs(es) + (match e case OutEntry(o) => [Endpoint(o.id, o.name, o.dataType, o.slot)] case _ => [])
  {
    assert (es + [e])[..|es|] == es;
  }

  /** Content inputs without the position that finalization gives them. */
  function Unplaced(cs: seq<Content>): seq<Content> {
    if cs == [] then [] else Unplaced(cs[..|cs| - 1]) + [cs[|cs| - 1].(position := ORIGIN)]
  }

  lemma UnplacedAppend(cs: seq<Content>, c: Content)
    ensures Unplaced(cs + [c]) == Unplaced(cs) + [c.(position := ORIGIN)]
  {
    assert (cs + [c])[..|cs|] == cs;
  }

  function OuterId(l: Link): Uuid {
    if l.start.operator.None? then l.start.connectorId else l.end.connectorId
  }

  /** The lists hold the entries of their kind, and there is a link for each entry. */
  ghost predicate ListsExact(es: seq<Entry>) {
    && |Links(es)| == |es| == |Inputs(es)| + |Outputs(es)| + |Constants(es)|
    && (forall k :: 0 <= k < |es| ==> Links(es)[k] == EntryLink(es[k]))
    && (forall i :: i in Inputs(es) <==> InEntry(i) in es)
    && (forall o :: o in Outputs(es) <==> OutEntry(o) in es)
    && (forall c :: c in Constants(es) <==> ConstEntry(c) in es)
  }

  lemma {:induction false} EntriesExact(es: seq<Entry>)
    ensures ListsExact(es)
  {
    if es != [] {
      EntriesExact(es[..|es| - 1]);
      ListsExactMore(es[..|es| - 1], es[|es| - 1]);
      assert es == es[..|es| - 1] + [es[|es| - 1]];
    }
  }

  lemma ListsExactMore(es: seq<Entry>, e: Entry)
    requires ListsExact(es)
    ensures ListsExact(es + [e])
  {
    hide EntryLink, Links, Inputs, Outputs, Constants;
    EntriesAppend(es, e);
  }

  lemma OuterIds(es: seq<Entry>)
    ensures forall k :: 0 <= k < |es| ==> OuterId(EntryLink(es[k])) == EntryId(es[k])
  {
  }

  /** The io links stand in one-to-one correspondence with the workflow inputs, workflow outputs and
      constants: each of these has its link, there are no others, and the ids at the outer ends differ. */
  lemma IoLinksCorrespond(b: Board)
    requires Consistent(b)
    ensures var ls := Links(b.entries);
      && |ls| == |Inputs(b.entries)| + |Outputs(b.entries)| + |Constants(b.entries)|
      && (forall j, k :: 0 <= j < k < |ls| ==> OuterId(ls[j]) != OuterId(ls[k]))
      && (forall i :: i in Inputs(b.entries) ==> EntryLink(InEntry(i)) in ls)
      && (forall o :: o in Outputs(b.entries) ==> EntryLink(OutEntry(o)) in ls)
      && (forall c :: c in Constants(b.entries) ==> EntryLink(ConstEntry(c)) in ls)
  {
    var es := b.entries;
    hide Links, Inputs, Outputs, Constants, EntryLink, IdsFresh, FlagsAgree;
    EntriesExact(es);
    OuterIds(es);
    forall e | e in es ensures EntryLink(e) in Links(es) {
      var k :| 0 <= k < |es| && es[k] == e;
      assert Links(es)[k] == EntryLink(e);
    }
  }

  // ----- the state of a construction -----

  datatype InState = InState(operator: Uuid, blocked: bool)
  datatype OutState = OutState(operator: Uuid, isLinkStart: bool, isTrafoOutput: bool)

  /** The links between operators, the entries, the flags by connector id, and the next fresh id. */
  datatype Board = Board(links: seq<Link>, entries: seq<Entry>, ins: map<Uuid, InState>, outs: map<Uuid, OutState>, nextId: Uuid)

  ghost predicate IdsBelow(l: Link, n: Uuid) {
    l.start.connectorId < n && l.end.connectorId < n
  }

  ghost predicate IdsFresh(b: Board) {
    && (forall id :: id in b.ins || id in b.outs ==> id < b.nextId)
    && (forall l :: l in b.links ==> IdsBelow(l, b.nextId))
    && (forall e :: e in b.entries ==> EntryId(e) < b.nextId && IdsBelow(EntryLink(e), b.nextId))
  }

  /** How many emitted links, inner or io, end at an operator input. */
  ghost function AllEnds(b: Board, id: Uuid): nat
    requires id in b.ins
  {
    Ends(b.links, b.ins[id].operator, id) + Ends(Links(b.entries), b.ins[id].operator, id)
  }

  /** An output starts links or feeds workflow outputs, never both, and its flags say which. */
  ghost predicate OutputFlagsAgree(b: Board, id: Uuid)
    requires id in b.outs
  {
    var o := b.outs[id];
    && (o.isLinkStart <==> Starts(b.links, o.operator, id) > 0)
    && (o.isTrafoOutput <==> Starts(Links(b.entries), o.operator, id) > 0)
    && !(o.isLinkStart && o.isTrafoOutput)
  }

  /** The flags say what the emitted links say: an input is blocked exactly if one link ends there, and
      otherwise none does. */
  ghost predicate FlagsAgree(b: Board) {
    && (forall id {:trigger AllEnds(b, id)} :: id in b.ins ==> AllEnds(b, id) == if b.ins[id].blocked then 1 else 0)
    && (forall id {:trigger OutputFlagsAgree(b, id)} :: id in b.outs ==> OutputFlagsAgree(b, id))
  }

  ghost predicate EntryIdsDistinct(es: seq<Entry>) {
    forall i, j :: 0 <= i < j < |es| ==> EntryId(es[i]) != EntryId(es[j])
  }

  ghost predicate Consistent(b: Board) {
    IdsFresh(b) && FlagsAgree(b) && EntryIdsDistinct(b.entries)
  }

  ghost function WithLink(b: Board, l: Link): Board
    requires l.end.connectorId in b.ins && l.start.connectorId in b.outs
  {
    var i, o := l.end.connectorId, l.start.connectorId;
    b.(links := b.links + [l], ins := b.ins[i := b.ins[i].(blocked := true)], outs := b.outs[o := b.outs[o].(isLinkStart := true)])
  }

  ghost function WithInput(b: Board, e: Entry, i: Uuid): Board
    requires i in b.ins
  {
    b.(entries := b.entries + [e], ins := b.ins[i := b.ins[i].(blocked := true)], nextId := b.nextId + 1)
  }

  ghost function WithOutput(b: Board, e: Entry, o: Uuid): Board
    requires o in b.outs
  {
    b.(entries := b.entries + [e], outs := b.outs[o := b.outs[o].(isTrafoOutput := true)], nextId := b.nextId + 1)
  }

  /** The link is one from a known output that is no workflow output to a known, unblocked input. */
  ghost predicate Linkable(b: Board, l: Link) {
    && l.end.connectorId in b.ins && l.start.connectorId in b.outs
    && l.end.operator == Some(b.ins[l.end.connectorId].operator) && l.start.operator == Some(b.outs[l.start.connectorId].operator)
    && !b.ins[l.end.connectorId].blocked && !b.outs[l.start.connectorId].isTrafoOutput
  }

  lemma WithLinkFresh(b: Board, l: Link)
    requires IdsFresh(b) && Linkable(b, l)
    ensures IdsFresh(WithLink(b, l))
  {
    hide EntryLink;
  }

  lemma WithLinkFlags(b: Board, l: Link)
    requires FlagsAgree(b) && Linkable(b, l)
    ensures FlagsAgree(WithLink(b, l))
  {
    hide Links, Ends, Starts;
    var b' := WithLink(b, l);
    forall id | id in b'.ins ensures AllEnds(b', id) == if b'.ins[id].blocked then 1 else 0 {
      CountAppend(b.links, l, b.ins[id].operator, id);
      assert AllEnds(b, id) == if b.ins[id].blocked then 1 else 0;
    }
    forall id | id in b'.outs ensures OutputFlagsAgree(b', id) {
      assert OutputFlagsAgree(b, id);
      CountAppend(b.links, l, b.outs[id].operator, id);
    }
  }

  lemma WithLinkConsistent(b: Board, l: Link)
    requires Consistent(b) && Linkable(b, l)
    ensures Consistent(WithLink(b, l))
  {
    hide IdsFresh, FlagsAgree, Links, Ends, Starts;
    WithLinkFresh(b, l);
    WithLinkFlags(b, l);
  }

  lemma NewEntryFresh(es: seq<Entry>, e: Entry, n: Uuid)
    requires forall x :: x in es ==> EntryId(x) < n && IdsBelow(EntryLink(x), n)
    requires EntryIdsDistinct(es) && EntryId(e) == n && IdsBelow(EntryLink(e), n + 1)
    ensures EntryIdsDistinct(es + [e])
    ensures forall x :: x in es + [e] ==> EntryId(x) < n + 1 && IdsBelow(EntryLink(x), n + 1)
  {
    assert forall k :: 0 <= k < |es| ==> es[k] in es;
  }

  /** The entry is new and leads into a known, unblocked input. */
  ghost predicate Feedable(b: Board, e: Entry, i: Uuid) {
    && i in b.ins && !b.ins[i].blocked && !e.OutEntry? && EntryId(e) == b.nextId
    && EntryLink(e).end.operator == Some(b.ins[i].operator) && EntryLink(e).end.connectorId == i
  }

  lemma WithInputFresh(b: Board, e: Entry, i: Uuid)
    requires IdsFresh(b) && EntryIdsDistinct(b.entries) && Feedable(b, e, i)
    ensures IdsFresh(WithInput(b, e, i)) && EntryIdsDistinct(WithInput(b, e, i).entries)
  {
    NewEntryFresh(b.entries, e, b.nextId);
    hide EntryLink;
  }

  lemma WithInputFlags(b: Board, e: Entry, i: Uuid)
    requires FlagsAgree(b) && Feedable(b, e, i)
    ensures FlagsAgree(WithInput(b, e, i))
  {
    NoStart(e);
    hide Links, Ends, Starts, EntryLink;
    var b' := WithInput(b, e, i);
    forall id | id in b'.ins ensures AllEnds(b', id) == if b'.ins[id].blocked then 1 else 0 {
      assert AllEnds(b, id) == if b.ins[id].blocked then 1 else 0;
      LinksStep(b.entries, e, b.ins[id].operator, id);
    }
    forall id | id in b'.outs ensures OutputFlagsAgree(b', id) {
      assert OutputFlagsAgree(b, id);
      LinksStep(b.entries, e, b.outs[id].operator, id);
    }
  }

  lemma NoStart(e: Entry)
    ensures !e.OutEntry? ==> EntryLink(e).start.operator.None?
  {
  }

  /** For a workflow input or a constant. */
  lemma WithInputConsistent(b: Board, e: Entry, i: Uuid)
    requires Consistent(b) && Feedable(b, e, i)
    ensures Consistent(WithInput(b, e, i))
  {
    hide IdsFresh, FlagsAgree, EntryIdsDistinct, EntryLink;
    WithInputFresh(b, e, i);
    WithInputFlags(b, e, i);
  }

  lemma LinksStep(es: seq<Entry>, e: Entry, operator: Uuid, id: Uuid)
    ensures Ends(Links(es + [e]), operator, id) == Ends(Links(es), operator, id) +
      if EntryLink(e).end.operator == Some(operator) && EntryLink(e).end.connectorId == id then 1 else 0
    ensures Starts(Links(es + [e]), operator, id) == Starts(Links(es), operator, id) +
      if EntryLink(e).start.operator == Some(operator) && EntryLink(e).start.connectorId == id then 1 else 0
  {
    EntriesAppend(es, e);
    CountAppend(Links(es), EntryLink(e), operator, id);
  }

  /** The entry is new and comes from a known output at which no link starts. */
  ghost predicate Drawable(b: Board, e: Entry, o: Uuid) {
    && o in b.outs && !b.outs[o].isLinkStart && e.OutEntry? && EntryId(e) == b.nextId
    && EntryLink(e).start.operator == Some(b.outs[o].operator) && EntryLink(e).start.connectorId == o
  }

  lemma WithOutputFresh(b: Board, e: Entry, o: Uuid)
    requires IdsFresh(b) && EntryIdsDistinct(b.entries) && Drawable(b, e, o)
    ensures IdsFresh(WithOutput(b, e, o)) && EntryIdsDistinct(WithOutput(b, e, o).entries)
  {
    NewEntryFresh(b.entries, e, b.nextId);
    hide EntryLink;
  }

  lemma WithOutputFlags(b: Board, e: Entry, o: Uuid)
    requires FlagsAgree(b) && Drawable(b, e, o)
    ensures FlagsAgree(WithOutput(b, e, o))
  {
    assert EntryLink(e).end.operator.None?;
    hide Links, Ends, Starts, EntryLink;
    var b' := WithOutput(b, e, o);
    forall id | id in b'.ins ensures AllEnds(b', id) == if b'.ins[id].blocked then 1 else 0 {
      assert AllEnds(b, id) == if b.ins[id].blocked then 1 else 0;
      LinksStep(b.entries, e, b.ins[id].operator, id);
    }
    forall id | id in b'.outs ensures OutputFlagsAgree(b', id) {
      assert OutputFlagsAgree(b, id);
      LinksStep(b.entries, e, b.outs[id].operator, id);
    }
  }

  lemma WithOutputConsistent(b: Board, e: Entry, o: Uuid)
    requires Consistent(b) && Drawable(b, e, o)
    ensures Consistent(WithOutput(b, e, o))
  {
    hide IdsFresh, FlagsAgree, EntryIdsDistinct, EntryLink;
    WithOutputFresh(b, e, o);
    WithOutputFlags(b, e, o);
  }

  /** The connectors of a new operator have ids from lo up to hi and are unconnected. */
  ghost predicate InsExtend(ins: map<Uuid, InState>, ins': map<Uuid, InState>, operator: Uuid, lo: Uuid, hi: Uuid) {
    && (forall id :: id in ins ==> id in ins' && ins'[id] == ins[id])
    && (forall id :: id in ins' && id !in ins ==> lo <= id < hi && ins'[id] == InState(operator, false))
  }

  ghost predicate OutsExtend(outs: map<Uuid, OutState>, outs': map<Uuid, OutState>, operator: Uuid, lo: Uuid, hi: Uuid) {
    && (forall id :: id in outs ==> id in outs' && outs'[id] == outs[id])
    && (forall id :: id in outs' && id !in outs ==> lo <= id < hi && outs'[id] == OutState(operator, false, false))
  }

  /** A new operator brings fresh, unconnected connectors. */
  ghost predicate Extends(b: Board, b': Board, operator: Uuid) {
    && b'.links == b.links && b'.entries == b.entries && b.nextId <= operator < b'.nextId
    && InsExtend(b.ins, b'.ins, operator, b.nextId, b'.nextId)
    && OutsExtend(b.outs, b'.outs, operator, b.nextId, b'.nextId)
  }

  lemma {:induction false} NoLinksYet(links: seq<Link>, n: Uuid, operator: Uuid, id: Uuid)
    requires forall l :: l in links ==> IdsBelow(l, n)
    requires id >= n
    ensures Ends(links, operator, id) == 0 && Starts(links, operator, id) == 0
  {
    if links != [] {
      NoLinksYet(links[..|links| - 1], n, operator, id);
      assert IdsBelow(links[|links| - 1], n);
    }
  }

  lemma {:induction false} EntryLinks(es: seq<Entry>, l: Link)
    requires l in Links(es)
    ensures exists e :: e in es && l == EntryLink(e)
  {
    var n := |es| - 1;
    if l in Links(es[..n]) {
      EntryLinks(es[..n], l);
    } else {
      assert es[n] in es;
    }
  }

  lemma ExtendsFlags(b: Board, b': Board, operator: Uuid)
    requires Consistent(b) && Extends(b, b', operator)
    ensures FlagsAgree(b')
  {
    forall l | l in Links(b.entries) ensures IdsBelow(l, b.nextId) {
      EntryLinks(b.entries, l);
    }
    hide Links, Ends, Starts, EntryLink, IdsBelow;
    forall id | id in b'.ins ensures AllEnds(b', id) == if b'.ins[id].blocked then 1 else 0 {
      if id in b.ins {
        assert AllEnds(b, id) == if b.ins[id].blocked then 1 else 0;
      } else {
        NoLinksYet(b.links, b.nextId, operator, id);
        NoLinksYet(Links(b.entries), b.nextId, operator, id);
      }
    }
    forall id | id in b'.outs ensures OutputFlagsAgree(b', id) {
      if id in b.outs {
        assert OutputFlagsAgree(b, id);
      } else {
        NoLinksYet(b.links, b.nextId, operator, id);
        NoLinksYet(Links(b.entries), b.nextId, operator, id);
      }
    }
  }

  lemma ExtendsConsistent(b: Board, b': Board, operator: Uuid)
    requires Consistent(b) && Extends(b, b', operator)
    ensures Consistent(b')
  {
    ExtendsFlags(b, b', operator);
    hide FlagsAgree, EntryIdsDistinct, EntryLink;
  }

  method CreateInputs(ts: seq<Endpoint>, firstId: Uuid) returns (inputs: seq<OperatorInput>)
    ensures |inputs| == |ts|
    ensures forall k :: 0 <= k < |ts| ==> fresh(inputs[k]) && inputs[k].exposed
    ensures forall k :: 0 <= k < |ts| ==> inputs[k].id == firstId + k && inputs[k].name == ts[k].name && inputs[k].dataType == ts[k].dataType && inputs[k].inputType == KindOf(ts[k].slot)
  {
    inputs := [];
    for i := 0 to |ts|
      invariant |inputs| == i
      invariant forall k :: 0 <= k < i ==> fresh(inputs[k]) && inputs[k].exposed
      invariant forall k :: 0 <= k < i ==> inputs[k].id == firstId + k && inputs[k].name == ts[k].name && inputs[k].dataType == ts[k].dataType && inputs[k].inputType == KindOf(ts[k].slot)
    {
      var inp := new OperatorInput(firstId + i, ts[i]);
      inputs := inputs + [inp];
    }
  }

  /** Infos for the named inputs, by name and, for reasoning, by id. */
  method CreateInputInfos(operator: Operator, inputs: seq<OperatorInput>) returns (byName: map<Name, OperatorInputInfo>, ghost byId: map<Uuid, OperatorInputInfo>)
    requires forall j, k :: 0 <= j < k < |inputs| ==> inputs[j].id != inputs[k].id
    ensures forall id :: id in byId ==> fresh(byId[id]) && byId[id].operator == operator && byId[id].inp.id == id && !byId[id].blocked && byId[id].inp in inputs
    ensures forall n :: n in byName ==> byName[n].inp.id in byId && byId[byName[n].inp.id] == byName[n] && byName[n].inp.name == Some(n)
    ensures forall k :: 0 <= k < |inputs| && inputs[k].name.Some? ==> inputs[k].name.value in byName
    ensures forall id :: id in byId ==> byId[id].inp.name.Some? && byId[id].inp.name.value in byName
  {
    byName, byId := map[], map[];
    for i := 0 to |inputs|
      invariant forall id :: id in byId ==> fresh(byId[id]) && byId[id].operator == operator && byId[id].inp.id == id && !byId[id].blocked && byId[id].inp in inputs[..i]
      invariant forall n :: n in byName ==> byName[n].inp.id in byId && byId[byName[n].inp.id] == byName[n] && byName[n].inp.name == Some(n)
      invariant forall k :: 0 <= k < i && inputs[k].name.Some? ==> inputs[k].name.value in byName
      invariant forall id :: id in byId ==> byId[id].inp.name.Some? && byId[id].inp.name.value in byName
    {
      if inputs[i].name.Some? {
        var info := new OperatorInputInfo(operator, inputs[i]);
        byName := byName[inputs[i].name.value := info];
        byId := byId[inputs[i].id := info];
      }
    }
  }

  method CreateOutputInfos(operator: Operator, outputs: seq<OperatorOutput>) returns (byName: map<Name, OperatorOutputInfo>, ghost byId: map<Uuid, OperatorOutputInfo>)
    requires forall j, k :: 0 <= j < k < |outputs| ==> outputs[j].id != outputs[k].id
    ensures forall id :: id in byId ==> fresh(byId[id]) && byId[id].operator == operator && byId[id].outp.id == id && !byId[id].isLinkStart && !byId[id].isTrafoOutput && byId[id].outp in outputs
    ensures forall n :: n in byName ==> byName[n].outp.id in byId && byId[byName[n].outp.id] == byName[n] && byName[n].outp.name == Some(n)
    ensures forall k :: 0 <= k < |outputs| && outputs[k].name.Some? ==> outputs[k].name.value in byName
  {
    byName, byId := map[], map[];
    for i := 0 to |outputs|
      invariant forall id :: id in byId ==> fresh(byId[id]) && byId[id].operator == operator && byId[id].outp.id == id && !byId[id].isLinkStart && !byId[id].isTrafoOutput && byId[id].outp in outputs[..i]
      invariant forall n :: n in byName ==> byName[n].outp.id in byId && byId[byName[n].outp.id] == byName[n] && byName[n].outp.name == Some(n)
      invariant forall k :: 0 <= k < i && outputs[k].name.Some? ==> outputs[k].name.value in byName
    {
      if outputs[i].name.Some? {
        var info := new OperatorOutputInfo(operator, outputs[i]);
        byName := byName[outputs[i].name.value := info];
        byId := byId[outputs[i].id := info];
      }
    }
  }

  ghost function InputInfos(infos: map<Uuid, OperatorInputInfo>): set<OperatorInputInfo> {
    set id | id in infos :: infos[id]
  }

  ghost function OutputInfos(infos: map<Uuid, OperatorOutputInfo>): set<OperatorOutputInfo> {
    set id | id in infos :: infos[id]
  }

  /** The inputs of operators that infos are about. */
  ghost function InputObjects(infos: map<Uuid, OperatorInputInfo>): set<OperatorInput> {
    set id | id in infos :: infos[id].inp
  }

  /** Ids, flags and operators of the infos are those in the states. */
  ghost predicate InsAgree(ins: map<Uuid, OperatorInputInfo>, inSet: set<OperatorInputInfo>, states: map<Uuid, InState>)
    reads inSet`blocked
  {
    && (forall id :: id in states <==> id in ins)
    && (forall id :: id in ins ==> ins[id] in inSet && ins[id].inp.id == id)
    && (forall id :: id in ins ==> states[id] == InState(ins[id].operator.id, ins[id].blocked))
  }

  ghost predicate OutsAgree(outs: map<Uuid, OperatorOutputInfo>, outSet: set<OperatorOutputInfo>, states: map<Uuid, OutState>)
    reads outSet`isLinkStart, outSet`isTrafoOutput
  {
    && (forall id :: id in states <==> id in outs)
    && (forall id :: id in outs ==> outs[id] in outSet && outs[id].outp.id == id && outs[id].outp in outs[id].operator.outputs)
    && (forall id :: id in outs ==> states[id] == OutState(outs[id].operator.id, outs[id].isLinkStart, outs[id].isTrafoOutput))
  }

  /** The infos of a new operator: one unconnected connector for each of its infos, with ids below nextId. */
  ghost predicate Created(info: OperatorInfo, firstId: Uuid, nextId: Uuid, newIns: map<Uuid, OperatorInputInfo>, newOuts: map<Uuid, OperatorOutputInfo>)
    reads InputInfos(newIns)`blocked, OutputInfos(newOuts)`isLinkStart, OutputInfos(newOuts)`isTrafoOutput, info.operator`inputs
  {
    && (forall id :: id in newIns ==> firstId < id < nextId && newIns[id].operator == info.operator && newIns[id].inp.id == id && !newIns[id].blocked)
    && (forall id :: id in newIns ==> newIns[id].inp in info.operator.inputs)
    && (forall id :: id in newOuts ==> newOuts[id].outp in info.operator.outputs)
    && (forall id :: id in newIns ==> newIns[id].inp.name.Some? && newIns[id].inp.name.value in info.inputInfos)
    && (forall id :: id in newOuts ==> firstId < id < nextId && newOuts[id].operator == info.operator && newOuts[id].outp.id == id && !newOuts[id].isLinkStart && !newOuts[id].isTrafoOutput)
    && (forall n :: n in info.inputInfos ==>
          var i := info.inputInfos[n]; i.inp.name == Some(n) && i.inp.id in newIns && newIns[i.inp.id] == i)
    && (forall n :: n in info.outputInfos ==>
          var o := info.outputInfos[n]; o.outp.name == Some(n) && o.outp.id in newOuts && newOuts[o.outp.id] == o)
  }

  ghost predicate HasName(ts: seq<Endpoint>, n: Name) {
    exists t :: t in ts && t.name == Some(n)
  }

  ghost predicate HasEndpoint(ts: seq<Endpoint>, n: Name, dataType: DataType) {
    exists t :: t in ts && t.name == Some(n) && t.dataType == dataType
  }

  /** There are infos for exactly the names of the revision, with their types. */
  ghost predicate Named(info: OperatorInfo, t: Trafo) {
    && (forall n :: n in info.inputInfos <==> HasName(t.inputs, n))
    && (forall n :: n in info.inputInfos ==> HasEndpoint(t.inputs, n, info.inputInfos[n].inp.dataType))
    && (forall n :: n in info.outputInfos <==> HasName(t.outputs, n))
    && (forall n :: n in info.outputInfos ==> HasEndpoint(t.outputs, n, info.outputInfos[n].outp.dataType))
  }

  /** The operator has the inputs and outputs of the revision, all shown. */
  ghost predicate Instance(o: Operator, t: Trafo)
    reads o`inputs, o.inputs
  {
    && |o.inputs| == |t.inputs| && |o.outputs| == |t.outputs|
    && (forall k :: 0 <= k < |t.inputs| ==>
          o.inputs[k].name == t.inputs[k].name && o.inputs[k].dataType == t.inputs[k].dataType && o.inputs[k].inputType == KindOf(t.inputs[k].slot) && o.inputs[k].exposed)
    && (forall k :: 0 <= k < |t.outputs| ==> o.outputs[k].name == t.outputs[k].name && o.outputs[k].dataType == t.outputs[k].dataType)
  }

  lemma NamedInputs(inputs: seq<OperatorInput>, infos: map<Name, OperatorInputInfo>, ts: seq<Endpoint>)
    requires |inputs| == |ts| && forall k :: 0 <= k < |ts| ==> inputs[k].name == ts[k].name && inputs[k].dataType == ts[k].dataType
    requires forall k :: 0 <= k < |inputs| && inputs[k].name.Some? ==> inputs[k].name.value in infos
    requires forall n :: n in infos ==> infos[n].inp in inputs && infos[n].inp.name == Some(n)
    ensures forall n :: n in infos <==> HasName(ts, n)
    ensures forall n :: n in infos ==> HasEndpoint(ts, n, infos[n].inp.dataType)
  {
    forall n | n in infos ensures HasName(ts, n) && HasEndpoint(ts, n, infos[n].inp.dataType) {
      var k :| 0 <= k < |inputs| && inputs[k] == infos[n].inp;
      assert ts[k] in ts;
    }
  }

  lemma NamedOutputs(outputs: seq<OperatorOutput>, infos: map<Name, OperatorOutputInfo>, ts: seq<Endpoint>)
    requires |outputs| == |ts| && forall k :: 0 <= k < |ts| ==> outputs[k].name == ts[k].name && outputs[k].dataType == ts[k].dataType
    requires forall k :: 0 <= k < |outputs| && outputs[k].name.Some? ==> outputs[k].name.value in infos
    requires forall n :: n in infos ==> infos[n].outp in outputs && infos[n].outp.name == Some(n)
    ensures forall n :: n in infos <==> HasName(ts, n)
    ensures forall n :: n in infos ==> HasEndpoint(ts, n, infos[n].outp.dataType)
  {
    forall n | n in infos ensures HasName(ts, n) && HasEndpoint(ts, n, infos[n].outp.dataType) {
      var k :| 0 <= k < |outputs| && outputs[k] == infos[n].outp;
      assert ts[k] in ts;
    }
  }

  method CreateInstance(trafo: Trafo, firstId: Uuid) returns (operator: Operator, nextId: Uuid)
    ensures fresh(operator) && operator.position == ORIGIN && operator.id == firstId < nextId && Instance(operator, trafo)
    ensures |operator.inputs| == |trafo.inputs| && |operator.outputs| == |trafo.outputs|
    ensures forall k :: 0 <= k < |operator.inputs| ==> fresh(operator.inputs[k]) && operator.inputs[k].id == firstId + 1 + k && operator.inputs[k].name == trafo.inputs[k].name && operator.inputs[k].dataType == trafo.inputs[k].dataType
    ensures forall k :: 0 <= k < |operator.outputs| ==> operator.outputs[k].id == firstId + 1 + |operator.inputs| + k && operator.outputs[k].name == trafo.outputs[k].name && operator.outputs[k].dataType == trafo.outputs[k].dataType
    ensures nextId == firstId + 1 + |operator.inputs| + |operator.outputs|
  {
    var inputs := CreateInputs(trafo.inputs, firstId + 1);
    var firstOutput := firstId + 1 + |inputs|;
    var outputs := seq(|trafo.outputs|, k requires 0 <= k < |trafo.outputs| =>
      OperatorOutput(firstOutput + k, trafo.outputs[k].name, trafo.outputs[k].dataType));
    operator := new Operator(firstId, inputs, outputs);
    nextId := firstOutput + |outputs|;
  }

  /** The infos by name are among those by id. */
  ghost predicate InfosIn(info: OperatorInfo, newIns: map<Uuid, OperatorInputInfo>, newOuts: map<Uuid, OperatorOutputInfo>) {
    && (forall id :: id in newIns ==> newIns[id].operator == info.operator)
    && (forall n :: n in info.inputInfos ==>
          var i := info.inputInfos[n]; i.operator == info.operator && i.inp.name == Some(n) && i.inp.id in newIns && newIns[i.inp.id] == i)
    && (forall n :: n in info.outputInfos ==>
          var o := info.outputInfos[n]; o.operator == info.operator && o.outp.name == Some(n) && o.outp.id in newOuts && newOuts[o.outp.id] == o)
  }

  lemma CreatedInfos(info: OperatorInfo, firstId: Uuid, nextId: Uuid, newIns: map<Uuid, OperatorInputInfo>, newOuts: map<Uuid, OperatorOutputInfo>)
    requires Created(info, firstId, nextId, newIns, newOuts)
    ensures InfosIn(info, newIns, newOuts)
  {
  }

  /** An operator for a revision with the ids from firstId on, and the infos about its named inputs and
      outputs. */
  method CreateOperator(trafo: Trafo, firstId: Uuid)
    returns (info: OperatorInfo, nextId: Uuid, ghost newIns: map<Uuid, OperatorInputInfo>, ghost newOuts: map<Uuid, OperatorOutputInfo>)
    ensures fresh(info.operator) && info.operator.position == ORIGIN && fresh(InputInfos(newIns)) && fresh(OutputInfos(newOuts)) && fresh(InputObjects(newIns))
    ensures info.operator.id == firstId < nextId && Created(info, firstId, nextId, newIns, newOuts)
    ensures Instance(info.operator, trafo) && Named(info, trafo)
  {
    hide Instance, HasName, HasEndpoint;
    var operator;
    operator, nextId := CreateInstance(trafo, firstId);
    var inputInfos, outputInfos;
    inputInfos, newIns := CreateInputInfos(operator, operator.inputs);
    outputInfos, newOuts := CreateOutputInfos(operator, operator.outputs);
    info := OperatorInfo(operator, inputInfos, outputInfos);
    NamedInputs(operator.inputs, inputInfos, trafo.inputs);
    NamedOutputs(operator.outputs, outputInfos, trafo.outputs);
  }

  /** Every operator is registered once, under its id. */
  ghost predicate Registered(infos: map<Uuid, OperatorInfo>, ids: seq<Uuid>, nextId: Uuid) {
    && (forall k :: 0 <= k < |ids| ==> ids[k] in infos)
    && (forall id :: id in infos ==> id in ids)
    && (forall j, k :: 0 <= j < k < |ids| ==> ids[j] != ids[k])
    && (forall id :: id in infos ==> infos[id].operator.id == id < nextId)
  }

  /** The info that finalization looks up for a workflow input exists. */
  ghost predicate Known(infos: map<Uuid, OperatorInfo>, operator: Uuid, name: Option<Name>) {
    operator in infos && (name.Some? ==> name.value in infos[operator].inputInfos)
  }

  /** A workflow input feeds a known operator input. */
  ghost predicate Feeds(ins: map<Uuid, OperatorInputInfo>, c: Content) {
    c.connectorId in ins && ins[c.connectorId].operator.id == c.operatorId && ins[c.connectorId].inp.name == c.connectorName
  }

  ghost predicate Traceable(infos: map<Uuid, OperatorInfo>, ins: map<Uuid, OperatorInputInfo>, cs: seq<Content>) {
    && (forall id :: id in ins ==> Known(infos, ins[id].operator.id, ins[id].inp.name) && infos[ins[id].operator.id].operator == ins[id].operator)
    && (forall k :: 0 <= k < |cs| ==> Feeds(ins, cs[k]))
  }

  function UnblockedStates(infos: map<Uuid, OperatorInputInfo>, operator: Uuid): map<Uuid, InState> {
    map id | id in infos :: InState(operator, false)
  }

  function UnusedStates(infos: map<Uuid, OperatorOutputInfo>, operator: Uuid): map<Uuid, OutState> {
    map id | id in infos :: OutState(operator, false, false)
  }

  lemma NewIns(ins: map<Uuid, OperatorInputInfo>, inSet: set<OperatorInputInfo>, states: map<Uuid, InState>, info: OperatorInfo, firstId: Uuid, nextId: Uuid, newIns: map<Uuid, OperatorInputInfo>, newOuts: map<Uuid, OperatorOutputInfo>)
    requires InsAgree(ins, inSet, states) && Created(info, firstId, nextId, newIns, newOuts) && forall id :: id in ins ==> id < firstId
    ensures InsAgree(ins + newIns, inSet + InputInfos(newIns), states + UnblockedStates(newIns, info.operator.id))
    ensures InsExtend(states, states + UnblockedStates(newIns, info.operator.id), info.operator.id, firstId, nextId)
  {
  }

  lemma NewOuts(outs: map<Uuid, OperatorOutputInfo>, outSet: set<OperatorOutputInfo>, states: map<Uuid, OutState>, info: OperatorInfo, firstId: Uuid, nextId: Uuid, newIns: map<Uuid, OperatorInputInfo>, newOuts: map<Uuid, OperatorOutputInfo>)
    requires OutsAgree(outs, outSet, states) && Created(info, firstId, nextId, newIns, newOuts) && forall id :: id in outs ==> id < firstId
    ensures OutsAgree(outs + newOuts, outSet + OutputInfos(newOuts), states + UnusedStates(newOuts, info.operator.id))
    ensures OutsExtend(states, states + UnusedStates(newOuts, info.operator.id), info.operator.id, firstId, nextId)
  {
  }

  ghost function InputOwners(infos: map<Uuid, OperatorInputInfo>): set<Operator> {
    set id | id in infos :: infos[id].operator
  }

  /** Inputs are still those of their operators, and those that workflow inputs feed are exposed. */
  ghost predicate InPlace(ins: map<Uuid, OperatorInputInfo>, owners: set<Operator>, shown: set<OperatorInput>, cs: seq<Content>)
    reads owners`inputs, shown`exposed
  {
    && (forall id :: id in ins ==> ins[id].operator in owners && ins[id].inp in ins[id].operator.inputs)
    && (forall id :: id in ins ==> ins[id].inp in shown)
    && (forall k :: 0 <= k < |cs| ==> cs[k].connectorId in ins && ins[cs[k].connectorId].inp.exposed)
  }

  lemma NewInPlace(info: OperatorInfo, firstId: Uuid, nextId: Uuid, ins: map<Uuid, OperatorInputInfo>, owners: set<Operator>, shown: set<OperatorInput>, newIns: map<Uuid, OperatorInputInfo>, newOuts: map<Uuid, OperatorOutputInfo>, cs: seq<Content>)
    requires InPlace(ins, owners, shown, cs) && Created(info, firstId, nextId, newIns, newOuts) && forall id :: id in newIns ==> id !in ins
    requires InputObjects(newIns) <= shown && InputOwners(newIns) <= owners
    ensures InPlace(ins + newIns, owners, shown, cs)
  {
  }

  lemma RegisteredLater(infos: map<Uuid, OperatorInfo>, ids: seq<Uuid>, nextId: Uuid)
    requires Registered(infos, ids, nextId)
    ensures Registered(infos, ids, nextId + 1)
  {
  }

  lemma NewInfoTraceable(infos: map<Uuid, OperatorInfo>, ids: seq<Uuid>, nextId: Uuid, nextId': Uuid, info: OperatorInfo, ins: map<Uuid, OperatorInputInfo>, newIns: map<Uuid, OperatorInputInfo>, newOuts: map<Uuid, OperatorOutputInfo>, cs: seq<Content>)
    requires Registered(infos, ids, nextId) && Traceable(infos, ins, cs) && info.operator.id == nextId < nextId'
    requires Created(info, nextId, nextId', newIns, newOuts) && forall id :: id in newIns ==> id !in ins
    ensures Registered(infos[nextId := info], ids + [nextId], nextId') && Traceable(infos[nextId := info], ins + newIns, cs)
  {
    assert forall k :: 0 <= k < |ids| ==> ids[k] in ids;
    assert forall k :: 0 <= k < |cs| ==> Feeds(ins, cs[k]);
  }

  // ----- finalization -----

  function Kind(i: OperatorInput): InputType {
    i.inputType
  }

  function Exposed(inputs: seq<OperatorInput>): seq<OperatorInput>
    reads inputs
  {
    if inputs == [] then []
    else Exposed(inputs[..|inputs| - 1]) + if inputs[|inputs| - 1].exposed then [inputs[|inputs| - 1]] else []
  }

  /** The exposed inputs are those at the given places, in their order, and no other input is exposed. */
  lemma {:induction false} ExposedPlaces(inputs: seq<OperatorInput>) returns (places: seq<nat>)
    ensures |places| == |Exposed(inputs)| && forall m, n :: 0 <= m < n < |places| ==> places[m] < places[n]
    ensures forall m :: 0 <= m < |places| ==> places[m] < |inputs| && Exposed(inputs)[m] == inputs[places[m]]
    ensures forall k: nat :: k < |inputs| ==> (inputs[k].exposed <==> k in places)
  {
    places := [];
    if inputs != [] {
      var n: nat := |inputs| - 1;
      places := ExposedPlaces(inputs[..n]);
      if inputs[n].exposed {
        places := places + [n];
      }
    }
  }

  ghost predicate FirstAt(inputs: seq<OperatorInput>, name: Option<Name>, k: nat) {
    k < |inputs| && inputs[k].name == name && forall j :: 0 <= j < k ==> inputs[j].name != name
  }

  /** The index of an input's name among the exposed inputs. */
  method PositionIndex(inputs: seq<OperatorInput>, name: Option<Name>) returns (index: Option<nat>)
    ensures index.Some? ==> FirstAt(Exposed(inputs), name, index.value)
    ensures index.None? ==> forall k: nat :: !FirstAt(Exposed(inputs), name, k)
  {
    ghost var seen := [];
    var ind := 0;
    for i := 0 to |inputs|
      invariant seen == Exposed(inputs[..i]) && ind == |seen|
      invariant forall k :: 0 <= k < |seen| ==> seen[k].name != name
    {
      assert inputs[..i + 1][..i] == inputs[..i];
      if inputs[i].exposed {
        if inputs[i].name == name {
          ExposedPrefix(inputs, i + 1);
          return Some(ind);
        }
        seen := seen + [inputs[i]];
        ind := ind + 1;
      }
    }
    assert inputs[..|inputs|] == inputs;
    return None;
  }

  lemma {:induction false} ExposedPrefix(inputs: seq<OperatorInput>, n: nat)
    requires n <= |inputs|
    ensures Exposed(inputs[..n]) <= Exposed(inputs)
    decreases |inputs|
  {
    if n < |inputs| {
      ExposedPrefix(inputs[..|inputs| - 1], n);
      assert inputs[..|inputs| - 1][..n] == inputs[..n];
    } else {
      assert inputs[..n] == inputs;
    }
  }

  ghost predicate FirstOutput(outputs: seq<OperatorOutput>, name: Option<Name>, k: nat) {
    k < |outputs| && outputs[k].name == name && forall j :: 0 <= j < k ==> outputs[j].name != name
  }

  /** Right of the operator, one row lower for each output above. */
  function OutputPlace(operator: Position, index: nat): Position {
    Position(operator.x + 450.0, operator.y + 50.0 + 10.0 + (20.0 + 10.0) * index as real)
  }

  lemma {:induction false} ExposedHas(inputs: seq<OperatorInput>, i: OperatorInput)
    requires i in inputs && i.exposed
    ensures exists k: nat :: FirstAt(Exposed(inputs), i.name, k)
  {
    var init, last := inputs[..|inputs| - 1], inputs[|inputs| - 1];
    var k: nat :| k < |inputs| && inputs[k] == i;
    if i in init {
      ExposedHas(init, i);
      var m: nat :| FirstAt(Exposed(init), i.name, m);
      assert FirstAt(Exposed(inputs), i.name, m);
    } else {
      assert last == i;
      FirstNamed(Exposed(inputs), i.name, |Exposed(inputs)| - 1);
    }
  }

  lemma {:induction false} FirstNamed(inputs: seq<OperatorInput>, name: Option<Name>, k: nat)
    requires k < |inputs| && inputs[k].name == name
    ensures exists m: nat :: FirstAt(inputs, name, m)
    decreases k
  {
    if j: nat :| j < k && inputs[j].name == name {
      FirstNamed(inputs, name, j);
    } else {
      assert FirstAt(inputs, name, k);
    }
  }

  /** Left of the operator, one row lower for each input drawn above. */
  function PlaceOf(operator: Position, index: nat): Position {
    Position(operator.x - 270.0, operator.y + 50.0 + 10.0 + (20.0 + 10.0) * index as real)
  }

  lemma {:induction false} ExposedKeepsOrder(inputs: seq<OperatorInput>)
    requires RequiredFirst(inputs, Kind)
    ensures RequiredFirst(Exposed(inputs), Kind)
    ensures forall i :: i in Exposed(inputs) ==> i in inputs
  {
    if inputs != [] {
      ExposedKeepsOrder(inputs[..|inputs| - 1]);
      var init := Exposed(inputs[..|inputs| - 1]);
      forall k | 0 <= k < |init| && inputs[|inputs| - 1].inputType.REQUIRED? ensures init[k].inputType.REQUIRED? {
        assert init[k] in inputs[..|inputs| - 1];
        assert Kind(inputs[|inputs| - 1]).REQUIRED?;
      }
      assert forall k :: 0 <= k < |init| ==> Exposed(inputs)[k] == init[k];
    }
  }

  /** After finalization, a workflow input into a required operator input is placed above, and apart
      from, those into optional inputs of the same operator. */
  lemma RequiredAboveOptional(operator: Operator, before: seq<OperatorInput>, r: nat, o: nat)
    requires operator.inputs == Order(before, Kind)
    requires r < |Exposed(operator.inputs)| && o < |Exposed(operator.inputs)|
    requires Exposed(operator.inputs)[r].inputType.REQUIRED? && Exposed(operator.inputs)[o].inputType.OPTIONAL?
    ensures PlaceOf(operator.position, r).y <= PlaceOf(operator.position, o).y - 30.0
  {
    var shown := Exposed(operator.inputs);
    assert RequiredFirst(shown, Kind) by {
      OrderCorrect(before, Kind);
      ExposedKeepsOrder(operator.inputs);
    }
    assert Kind(shown[r]).REQUIRED? && Kind(shown[o]).OPTIONAL?;
    assert r < o;
    assert r as real + 1.0 <= o as real;
  }

  lemma UnplacedUpdate(cs: seq<Content>, k: nat, p: Position)
    requires k < |cs|
    ensures Unplaced(cs[k := cs[k].(position := p)]) == Unplaced(cs)
  {
    var cs' := cs[k := cs[k].(position := p)];
    if k == |cs| - 1 {
      assert cs'[..k] == cs[..k];
    } else {
      UnplacedUpdate(cs[..|cs| - 1], k, p);
      assert cs'[..|cs| - 1] == cs[..|cs| - 1][k := cs[k].(position := p)];
    }
  }

  /** The content entry for a workflow output: the operator output it shows, and its place beside it. */
  ghost predicate OutputContent(c: Content, id: Uuid, name: Name, o: OperatorOutputInfo)
    reads o.operator`position
  {
    && c.id == id && c.name == Some(name) && c.slot == Slot.Output && c.operatorId == o.operator.id
    && c.connectorId == o.outp.id && c.connectorName == o.outp.name && c.dataType == o.outp.dataType
    && exists row: nat :: FirstOutput(o.operator.outputs, o.outp.name, row)
         && c.position == Position(o.operator.position.x + 450.0, o.operator.position.y + 60.0 + 30.0 * row as real)
  }

  /** The content entry for a workflow input; it gets its place in the end. */
  ghost predicate InputContent(c: Content, id: Uuid, name: Name, slot: Slot, i: OperatorInputInfo) {
    c == Content(id, Some(name), i.inp.dataType, slot, i.operator.id, i.inp.id, i.inp.name, ORIGIN)
  }

  ghost predicate ConstantContent(c: Constant, id: Uuid, i: OperatorInputInfo, value: string) {
    c == Constant(id, i.inp.dataType, i.operator.id, i.inp.id, i.inp.name, value)
  }

  function InputSlot(optional: bool, defaultValue: Option<Value>): Slot {
    if optional then Slot.Input(OPTIONAL, defaultValue) else Slot.Input(REQUIRED, None)
  }

  lemma OutputDrawable(b: Board, c: Content, name: Name, o: OperatorOutputInfo)
    requires OutputContent(c, b.nextId, name, o)
    requires o.outp.id in b.outs && b.outs[o.outp.id].operator == o.operator.id && !b.outs[o.outp.id].isLinkStart
    ensures Drawable(b, OutEntry(c), o.outp.id)
  {
  }

  lemma InputFeedable(b: Board, c: Content, name: Name, slot: Slot, i: OperatorInputInfo)
    requires InputContent(c, b.nextId, name, slot, i)
    requires i.inp.id in b.ins && b.ins[i.inp.id].operator == i.operator.id && !b.ins[i.inp.id].blocked
    ensures Feedable(b, InEntry(c), i.inp.id)
  {
  }

  lemma ConstantFeedable(b: Board, c: Constant, i: OperatorInputInfo, value: string)
    requires ConstantContent(c, b.nextId, i, value)
    requires i.inp.id in b.ins && b.ins[i.inp.id].operator == i.operator.id && !b.ins[i.inp.id].blocked
    ensures Feedable(b, ConstEntry(c), i.inp.id)
  {
  }

  function Moved(p: Position, x: real, y: real): Position {
    Position(p.x + x, p.y + y)
  }

  class WorkflowConstructor {
    const isIdentifier: Name -> bool
    const autoarrange: bool
    var operatorInfosById: map<Uuid, OperatorInfo>
    var operatorIds: seq<Uuid>
    var links: seq<Link>
    var ioLinks: seq<Link>
    var contentInputs: seq<Content>
    var contentOutputs: seq<Content>
    var trafoInputs: seq<Endpoint>
    var trafoOutputs: seq<Endpoint>
    var constants: seq<Constant>
    var currentPosition: Position
    var nextId: Uuid  // stands for uuid4(): ids are never issued twice

    ghost var entries: seq<Entry>
    ghost var inStates: map<Uuid, InState>
    ghost var outStates: map<Uuid, OutState>
    ghost var ins: map<Uuid, OperatorInputInfo>    // all input infos, by connector id
    ghost var outs: map<Uuid, OperatorOutputInfo>  // all output infos, by connector id
    ghost var inSet: set<OperatorInputInfo>        // the objects whose flags InputsAgree reads
    ghost var shown: set<OperatorInput>            // the operator inputs and operators of the infos
    ghost var owners: set<Operator>
    ghost var outSet: set<OperatorOutputInfo>

    ghost function Abstract(): Board
      reads this`links, this`entries, this`inStates, this`outStates, this`nextId
    {
      Board(links, entries, inStates, outStates, nextId)
    }

    ghost predicate HasIn(i: OperatorInputInfo)
      reads this`ins
    {
      i.inp.id in ins && ins[i.inp.id] == i
    }

    ghost predicate HasOut(o: OperatorOutputInfo)
      reads this`outs
    {
      o.outp.id in outs && outs[o.outp.id] == o
    }

    /** The lists are the entries, seen from six sides. */
    ghost predicate ListsAgree()
      reads this`entries, this`ioLinks, this`contentInputs, this`contentOutputs, this`constants, this`trafoInputs, this`trafoOutputs
    {
      && ioLinks == Links(entries) && Unplaced(contentInputs) == Inputs(entries)
      && contentOutputs == Outputs(entries) && constants == Constants(entries)
      && trafoInputs == TrafoInputs(entries) && trafoOutputs == TrafoOutputs(entries)
    }

    ghost predicate InputsAgree()
      reads this`ins, this`inStates, this`inSet, inSet`blocked
    {
      InsAgree(ins, inSet, inStates)
    }

    ghost predicate OutputsAgree()
      reads this`outs, this`outStates, this`outSet, outSet`isLinkStart, outSet`isTrafoOutput
    {
      OutsAgree(outs, outSet, outStates)
    }

    /** What is kept beside the links and the flags. */
    ghost predicate Recorded()
      reads this`entries, this`ioLinks, this`contentInputs, this`contentOutputs, this`constants, this`trafoInputs, this`trafoOutputs
      reads this`operatorInfosById, this`operatorIds, this`nextId, this`ins
    {
      ListsAgree() && Registered(operatorInfosById, operatorIds, nextId) && Traceable(operatorInfosById, ins, contentInputs)
    }

    ghost predicate Valid()
      reads this, inSet`blocked, outSet`isLinkStart, outSet`isTrafoOutput
    {
      Recorded() && InputsAgree() && OutputsAgree() && Consistent(Abstract())
    }

    /** From outside no operator input was removed, and none hidden that a workflow input feeds. */
    ghost predicate Untouched()
      reads this`ins, this`contentInputs, this`owners, this`shown, owners`inputs, shown`exposed
    {
      InPlace(ins, owners, shown, contentInputs)
    }

    constructor (isIdentifier: Name -> bool, autoarrange: bool)
      ensures Valid() && Untouched() && Abstract() == Board([], [], map[], map[], 0)
      ensures this.isIdentifier == isIdentifier && this.autoarrange == autoarrange && currentPosition == ORIGIN
      ensures inSet == {} && outSet == {} && shown == {} && ins == map[] && operatorInfosById == map[] && contentOutputs == []
    {
      this.isIdentifier, this.autoarrange := isIdentifier, autoarrange;
      operatorInfosById, operatorIds := map[], [];
      links, ioLinks, contentInputs, contentOutputs, trafoInputs, trafoOutputs, constants := [], [], [], [], [], [], [];
      currentPosition, nextId := ORIGIN, 0;
      entries, inStates, outStates, ins, outs, inSet, outSet, shown, owners := [], map[], map[], map[], map[], {}, {}, {}, {};
    }

    lemma InputState(i: OperatorInputInfo)
      requires InputsAgree() && HasIn(i)
      ensures i in inSet && i.inp.id in inStates && inStates[i.inp.id] == InState(i.operator.id, i.blocked)
    {
    }

    lemma OutputState(o: OperatorOutputInfo)
      requires OutputsAgree() && HasOut(o)
      ensures o in outSet && o.outp in o.operator.outputs && o.outp.id in outStates && outStates[o.outp.id] == OutState(o.operator.id, o.isLinkStart, o.isTrafoOutput)
    {
    }

    /** What the constructor knows about an input, seen from outside. */
    lemma KnownInput(i: OperatorInputInfo)
      requires Valid() && HasIn(i)
      ensures i in inSet && i.inp.id in inStates && inStates[i.inp.id] == InState(i.operator.id, i.blocked)
      ensures Untouched() ==> i.inp in shown
    {
    }

    lemma KnownOutput(o: OperatorOutputInfo)
      requires Valid() && HasOut(o)
      ensures o in outSet && o.outp.id in outStates && outStates[o.outp.id] == OutState(o.operator.id, o.isLinkStart, o.isTrafoOutput)
    {
    }

    method Block(i: OperatorInputInfo)
      requires InputsAgree() && HasIn(i)
      modifies this`inStates, i`blocked
      ensures InputsAgree() && i.blocked && (old(OutputsAgree()) ==> OutputsAgree())
      ensures inStates == old(inStates)[i.inp.id := old(inStates)[i.inp.id].(blocked := true)]
    {
      i.blocked := true;
      inStates := inStates[i.inp.id := inStates[i.inp.id].(blocked := true)];
    }

    method MarkLinkStart(o: OperatorOutputInfo)
      requires OutputsAgree() && HasOut(o)
      modifies this`outStates, o`isLinkStart
      ensures OutputsAgree() && o.isLinkStart && (old(InputsAgree()) ==> InputsAgree())
      ensures outStates == old(outStates)[o.outp.id := old(outStates)[o.outp.id].(isLinkStart := true)]
    {
      o.isLinkStart := true;
      outStates := outStates[o.outp.id := outStates[o.outp.id].(isLinkStart := true)];
    }

    method MarkTrafoOutput(o: OperatorOutputInfo)
      requires OutputsAgree() && HasOut(o)
      modifies this`outStates, o`isTrafoOutput
      ensures OutputsAgree() && o.isTrafoOutput && (old(InputsAgree()) ==> InputsAgree())
      ensures outStates == old(outStates)[o.outp.id := old(outStates)[o.outp.id].(isTrafoOutput := true)]
    {
      o.isTrafoOutput := true;
      outStates := outStates[o.outp.id := outStates[o.outp.id].(isTrafoOutput := true)];
    }

    method AddLink(o: OperatorOutputInfo, i: OperatorInputInfo)
      requires InputsAgree() && OutputsAgree() && HasOut(o) && HasIn(i)
      requires i.inp.id in inStates && o.outp.id in outStates
      modifies this`links, this`inStates, this`outStates, i`blocked, o`isLinkStart
      ensures InputsAgree() && OutputsAgree()
      ensures Abstract() == WithLink(old(Abstract()), InnerLink(o, i))
    {
      hide InputsAgree, OutputsAgree;
      Block(i);
      MarkLinkStart(o);
      links := links + [InnerLink(o, i)];
    }

    /** Refused if the input is occupied, if the output is a workflow output, or if types or operators
        do not fit; then nothing changes. */
    method Link(o: OperatorOutputInfo, i: OperatorInputInfo) returns (ok: bool)
      requires Valid() && HasOut(o) && HasIn(i)
      modifies this`links, this`inStates, this`outStates, i`blocked, o`isLinkStart
      ensures Valid() && (old(Untouched()) ==> Untouched())
      ensures ok <==> !old(i.blocked) && !o.isTrafoOutput && ValidLink(InnerLink(o, i))
      ensures Abstract() == if ok then WithLink(old(Abstract()), InnerLink(o, i)) else old(Abstract())
    {
      hide Consistent, Recorded, InputsAgree, OutputsAgree, WithLink, InPlace;
      InputState(i);
      OutputState(o);
      ok := !i.blocked && !o.isTrafoOutput && ValidLink(InnerLink(o, i));
      if ok {
        WithLinkConsistent(Abstract(), InnerLink(o, i));
        AddLink(o, i);
      }
    }

    /** The index of an output among the outputs of its operator. */
    method OutputIndex(o: OperatorOutputInfo) returns (index: nat)
      requires o.outp in o.operator.outputs
      ensures FirstOutput(o.operator.outputs, o.outp.name, index)
    {
      index := 0;
      while o.operator.outputs[index].name != o.outp.name
        invariant index < |o.operator.outputs|
        invariant forall k :: 0 <= k < index ==> o.operator.outputs[k].name != o.outp.name
        invariant exists k :: index <= k < |o.operator.outputs| && o.operator.outputs[k] == o.outp
        decreases |o.operator.outputs| - index
      {
        index := index + 1;
      }
    }

    method CreateOutput(name: Name, o: OperatorOutputInfo) returns (c: Content)
      requires o.outp in o.operator.outputs
      ensures OutputContent(c, nextId, name, o)
    {
      var index := OutputIndex(o);
      return Content(nextId, Some(name), o.outp.dataType, Slot.Output, o.operator.id, o.outp.id, o.outp.name, OutputPlace(o.operator.position, index));
    }

    /** Refused if a link starts at the output or the name is not acceptable. */
    method Output(name: Name, o: OperatorOutputInfo) returns (ok: bool)
      requires Valid() && HasOut(o)
      modifies this`nextId, this`entries, this`ioLinks, this`contentOutputs, this`trafoOutputs, this`outStates, o`isTrafoOutput
      ensures Valid() && (old(Untouched()) ==> Untouched())
      ensures ok <==> !o.isLinkStart && isIdentifier(name)
      ensures ok ==> contentOutputs != []
      ensures ok ==>
        var c := contentOutputs[|contentOutputs| - 1];
        && OutputContent(c, old(nextId), name, o) && Abstract() == WithOutput(old(Abstract()), OutEntry(c), o.outp.id)
        && contentOutputs == old(contentOutputs) + [c]
      ensures !ok ==> Abstract() == old(Abstract()) && contentOutputs == old(contentOutputs)
    {
      hide Consistent, Recorded, InputsAgree, OutputsAgree, InPlace, OutputContent, Feedable, Drawable, WithInput, WithOutput;
      OutputState(o);
      ok := !o.isLinkStart && isIdentifier(name);
      if ok {
        var output := CreateOutput(name, o);
        OutputDrawable(Abstract(), output, name, o);
        ShowOutput(output, o);
      }
    }

    method ShowOutput(c: Content, o: OperatorOutputInfo)
      requires Valid() && HasOut(o) && Drawable(Abstract(), OutEntry(c), o.outp.id)
      modifies this`nextId, this`entries, this`ioLinks, this`contentOutputs, this`trafoOutputs, this`outStates, o`isTrafoOutput
      ensures Valid() && (old(Untouched()) ==> Untouched())
      ensures contentOutputs == old(contentOutputs) + [c] && Abstract() == WithOutput(old(Abstract()), OutEntry(c), o.outp.id)
    {
      hide Consistent, Recorded, InputsAgree, OutputsAgree, InPlace, EntryLink;
      WithOutputConsistent(Abstract(), OutEntry(c), o.outp.id);
      EmitOutput(c);
      MarkTrafoOutput(o);
    }

    method EmitOutput(o: Content)
      requires Recorded() && o.id == nextId
      modifies this`nextId, this`entries, this`ioLinks, this`contentOutputs, this`trafoOutputs
      ensures Recorded() && entries == old(entries) + [OutEntry(o)] && nextId == old(nextId) + 1
      ensures contentOutputs == old(contentOutputs) + [o]
    {
      hide Traceable, Registered, EntryLink, Links, Inputs, Outputs, Constants, TrafoInputs, TrafoOutputs;
      RegisteredLater(operatorInfosById, operatorIds, nextId);
      EntriesAppend(entries, OutEntry(o));
      contentOutputs := contentOutputs + [o];
      ioLinks := ioLinks + [EntryLink(OutEntry(o))];
      trafoOutputs := trafoOutputs + [Endpoint(o.id, o.name, o.dataType, o.slot)];
      entries := entries + [OutEntry(o)];
      nextId := nextId + 1;
    }

    method Expose(i: OperatorInputInfo)
      modifies i.inp`exposed
      ensures i.inp.exposed && (old(Untouched()) ==> Untouched())
    {
      i.inp.exposed := true;
    }

    /** Refused if the input is occupied. An unacceptable name is noticed only after the operator input
        was exposed. */
    method Input(name: Name, i: OperatorInputInfo, optional: bool, defaultValue: Option<Value>) returns (ok: bool)
      requires Valid() && HasIn(i)
      modifies this`nextId, this`entries, this`ioLinks, this`contentInputs, this`trafoInputs, this`inStates, i`blocked, i.inp`exposed
      ensures Valid() && (old(Untouched()) ==> Untouched())
      ensures ok <==> !old(i.blocked) && isIdentifier(name)
      ensures i.inp.exposed == (!old(i.blocked) || old(i.inp.exposed))
      ensures ok ==> contentInputs != []
      ensures ok ==>
        var c := contentInputs[|contentInputs| - 1];
        && InputContent(c, old(nextId), name, InputSlot(optional, defaultValue), i)
        && Abstract() == WithInput(old(Abstract()), InEntry(c), i.inp.id)
      ensures !ok ==> Abstract() == old(Abstract())
    {
      hide Consistent, Recorded, InputsAgree, OutputsAgree, InPlace, OutputContent, Feedable, Drawable, WithInput, WithOutput;
      InputState(i);
      if i.blocked {
        return false;
      }
      Expose(i);
      ok := isIdentifier(name);
      if ok {
        var slot := InputSlot(optional, defaultValue);
        var content := Content(nextId, Some(name), i.inp.dataType, slot, i.operator.id, i.inp.id, i.inp.name, ORIGIN);
        InputFeedable(Abstract(), content, name, slot, i);
        FeedInput(content, i);
      }
    }

    method FeedInput(c: Content, i: OperatorInputInfo)
      requires Valid() && HasIn(i) && Feedable(Abstract(), InEntry(c), i.inp.id)
      requires Feeds(ins, c) && c.position == ORIGIN && c.connectorId == i.inp.id && i.inp.exposed
      modifies this`nextId, this`entries, this`ioLinks, this`contentInputs, this`trafoInputs, this`inStates, i`blocked
      ensures Valid() && i.blocked && (old(Untouched()) ==> Untouched())
      ensures contentInputs == old(contentInputs) + [c] && Abstract() == WithInput(old(Abstract()), InEntry(c), i.inp.id)
    {
      hide Consistent, Recorded, InputsAgree, OutputsAgree, InPlace, EntryLink, Feeds;
      WithInputConsistent(Abstract(), InEntry(c), i.inp.id);
      EmitInput(c);
      Block(i);
    }

    method EmitInput(i: Content)
      requires Recorded() && Feeds(ins, i)
      requires i.id == nextId && i.position == ORIGIN
      modifies this`nextId, this`entries, this`ioLinks, this`contentInputs, this`trafoInputs
      ensures Recorded() && entries == old(entries) + [InEntry(i)] && nextId == old(nextId) + 1
      ensures contentInputs == old(contentInputs) + [i]
      ensures old(Untouched()) && ins[i.connectorId].inp.exposed ==> Untouched()
    {
      hide Known, Registered, EntryLink, Links, Inputs, Outputs, Constants, TrafoInputs, TrafoOutputs, Unplaced;
      RegisteredLater(operatorInfosById, operatorIds, nextId);
      EntriesAppend(entries, InEntry(i));
      UnplacedAppend(contentInputs, i);
      contentInputs := contentInputs + [i];
      ioLinks := ioLinks + [EntryLink(InEntry(i))];
      trafoInputs := trafoInputs + [Endpoint(i.id, i.name, i.dataType, i.slot)];
      entries := entries + [InEntry(i)];
      nextId := nextId + 1;
    }

    method SetConstant(i: OperatorInputInfo, value: string) returns (ok: bool)
      requires Valid() && HasIn(i)
      modifies this`nextId, this`entries, this`ioLinks, this`constants, this`inStates, i`blocked, i.inp`exposed
      ensures Valid() && (old(Untouched()) ==> Untouched())
      ensures ok <==> !old(i.blocked)
      ensures i.inp.exposed == (ok || old(i.inp.exposed))
      ensures ok ==> constants != []
      ensures ok ==>
        var c := constants[|constants| - 1];
        ConstantContent(c, old(nextId), i, value) && Abstract() == WithInput(old(Abstract()), ConstEntry(c), i.inp.id)
      ensures !ok ==> Abstract() == old(Abstract())
    {
      hide Consistent, Recorded, InputsAgree, OutputsAgree, InPlace, OutputContent, Feedable, Drawable, WithInput, WithOutput;
      InputState(i);
      if i.blocked {
        return false;
      }
      Expose(i);
      var constant := Constant(nextId, i.inp.dataType, i.operator.id, i.inp.id, i.inp.name, value);
      ConstantFeedable(Abstract(), constant, i, value);
      FeedConstant(constant, i);
      return true;
    }

    method FeedConstant(c: Constant, i: OperatorInputInfo)
      requires Valid() && HasIn(i) && Feedable(Abstract(), ConstEntry(c), i.inp.id)
      modifies this`nextId, this`entries, this`ioLinks, this`constants, this`inStates, i`blocked
      ensures Valid() && i.blocked && (old(Untouched()) ==> Untouched())
      ensures constants == old(constants) + [c] && Abstract() == WithInput(old(Abstract()), ConstEntry(c), i.inp.id)
    {
      hide Consistent, Recorded, InputsAgree, OutputsAgree, InPlace, EntryLink;
      WithInputConsistent(Abstract(), ConstEntry(c), i.inp.id);
      EmitConstant(c);
      Block(i);
    }

    method EmitConstant(c: Constant)
      requires Recorded() && c.id == nextId
      modifies this`nextId, this`entries, this`ioLinks, this`constants
      ensures Recorded() && entries == old(entries) + [ConstEntry(c)] && nextId == old(nextId) + 1
      ensures constants == old(constants) + [c]
    {
      hide Traceable, Registered, EntryLink, Links, Inputs, Outputs, Constants, TrafoInputs, TrafoOutputs;
      RegisteredLater(operatorInfosById, operatorIds, nextId);
      EntriesAppend(entries, ConstEntry(c));
      constants := constants + [c];
      ioLinks := ioLinks + [EntryLink(ConstEntry(c))];
      entries := entries + [ConstEntry(c)];
      nextId := nextId + 1;
    }

    // ----- operators -----

    lemma ConnectorIdsBelow()
      requires Valid()
      ensures forall id :: id in ins || id in outs ==> id < nextId
    {
      forall id | id in ins || id in outs ensures id < nextId {
        assert id in inStates || id in outStates;
      }
    }

    /** The new infos came to those there were. */
    ghost predicate Joined(ins0: map<Uuid, OperatorInputInfo>, inSet0: set<OperatorInputInfo>, shown0: set<OperatorInput>, owners0: set<Operator>, outs0: map<Uuid, OperatorOutputInfo>, outSet0: set<OperatorOutputInfo>, newIns: map<Uuid, OperatorInputInfo>, newOuts: map<Uuid, OperatorOutputInfo>)
      reads this`ins, this`inSet, this`shown, this`owners, this`outs, this`outSet
    {
      && shown == shown0 + InputObjects(newIns) && owners == owners0 + InputOwners(newIns)
      && ins == ins0 + newIns && inSet == inSet0 + InputInfos(newIns) && (forall id :: id in newIns ==> id !in ins0)
      && outs == outs0 + newOuts && outSet == outSet0 + OutputInfos(newOuts) && (forall id :: id in newOuts ==> id !in outs0)
    }

    ghost method AddObjects(newIns: map<Uuid, OperatorInputInfo>)
      modifies this`shown, this`owners
      ensures shown == old(shown) + InputObjects(newIns) && owners == old(owners) + InputOwners(newIns)
      ensures (old(InputsAgree()) ==> InputsAgree()) && (old(Untouched()) ==> Untouched())
    {
      hide InputsAgree, InputObjects, InputOwners;
      shown := shown + InputObjects(newIns);
      owners := owners + InputOwners(newIns);
    }

    ghost method AddInputs(info: OperatorInfo, nextId': Uuid, newIns: map<Uuid, OperatorInputInfo>, newOuts: map<Uuid, OperatorOutputInfo>)
      requires InputsAgree() && Created(info, nextId, nextId', newIns, newOuts)
      requires forall id :: id in ins ==> id < nextId
      requires forall id :: id in newIns ==> id !in ins
      requires InputObjects(newIns) <= shown && InputOwners(newIns) <= owners
      modifies this`ins, this`inStates, this`inSet
      ensures InputsAgree() && InsExtend(old(inStates), inStates, info.operator.id, nextId, nextId')
      ensures ins == old(ins) + newIns && inSet == old(inSet) + InputInfos(newIns)
      ensures old(Untouched()) ==> Untouched()
    {
      hide Created, InsExtend, InsAgree, InPlace, UnblockedStates, InputInfos;
      NewIns(ins, inSet, inStates, info, nextId, nextId', newIns, newOuts);
      if Untouched() {
        NewInPlace(info, nextId, nextId', ins, owners, shown, newIns, newOuts, contentInputs);
      }
      ins, inSet, inStates := ins + newIns, inSet + InputInfos(newIns), inStates + UnblockedStates(newIns, info.operator.id);
    }

    ghost method AddOutputs(info: OperatorInfo, nextId': Uuid, newIns: map<Uuid, OperatorInputInfo>, newOuts: map<Uuid, OperatorOutputInfo>)
      requires OutputsAgree() && Created(info, nextId, nextId', newIns, newOuts) && forall id :: id in outs ==> id < nextId
      modifies this`outs, this`outStates, this`outSet
      ensures OutputsAgree() && OutsExtend(old(outStates), outStates, info.operator.id, nextId, nextId')
      ensures outs == old(outs) + newOuts && outSet == old(outSet) + OutputInfos(newOuts)
    {
      hide Created, OutsExtend, OutsAgree, UnusedStates;
      NewOuts(outs, outSet, outStates, info, nextId, nextId', newIns, newOuts);
      var joined, objects := outs + newOuts, outSet + OutputInfos(newOuts);
      var states := outStates + UnusedStates(newOuts, info.operator.id);
      assert OutsAgree(joined, objects, states);
      outs, outSet, outStates := joined, objects, states;
    }

    ghost method AddConnectors(info: OperatorInfo, nextId': Uuid, newIns: map<Uuid, OperatorInputInfo>, newOuts: map<Uuid, OperatorOutputInfo>)
      requires InputsAgree() && OutputsAgree() && Created(info, nextId, nextId', newIns, newOuts)
      requires forall id :: id in ins || id in outs ==> id < nextId
      modifies this`ins, this`inStates, this`inSet, this`shown, this`owners, this`outs, this`outStates, this`outSet
      ensures InputsAgree() && OutputsAgree() && Joined(old(ins), old(inSet), old(shown), old(owners), old(outs), old(outSet), newIns, newOuts)
      ensures InsExtend(old(inStates), inStates, info.operator.id, nextId, nextId')
      ensures OutsExtend(old(outStates), outStates, info.operator.id, nextId, nextId')
      ensures old(Untouched()) ==> Untouched()
    {
      hide InPlace, Created, InputsAgree, OutputsAgree, InsExtend, OutsExtend, InputInfos, InputObjects, InputOwners, OutputInfos;
      NewIdsAbove(info, nextId', newIns, newOuts);
      AddObjects(newIns);
      AddInputs(info, nextId', newIns, newOuts);
      AddOutputs(info, nextId', newIns, newOuts);
    }

    method Register(info: OperatorInfo, nextId': Uuid, ghost newIns: map<Uuid, OperatorInputInfo>, ghost newOuts: map<Uuid, OperatorOutputInfo>)
      requires Valid() && info.operator.id == nextId < nextId'
      requires Created(info, nextId, nextId', newIns, newOuts)
      modifies this`operatorInfosById, this`operatorIds, this`nextId, this`ins, this`inStates, this`inSet, this`shown, this`owners, this`outs, this`outStates, this`outSet
      ensures Valid() && Extends(old(Abstract()), Abstract(), info.operator.id)
      ensures Joined(old(ins), old(inSet), old(shown), old(owners), old(outs), old(outSet), newIns, newOuts)
      ensures old(Untouched()) ==> Untouched()
      ensures operatorInfosById == old(operatorInfosById)[info.operator.id := info]
    {
      hide InPlace, Consistent, ListsAgree, Registered, Links, Ends, Starts, Traceable, InputsAgree, OutputsAgree, InsExtend, OutsExtend, Created, Joined;
      ConnectorIdsBelow();
      NewIdsAbove(info, nextId', newIns, newOuts);
      NewInfoTraceable(operatorInfosById, operatorIds, nextId, nextId', info, ins, newIns, newOuts, contentInputs);
      AddConnectors(info, nextId', newIns, newOuts);
      JoinedIns(old(ins), old(inSet), old(shown), old(owners), old(outs), old(outSet), newIns, newOuts);
      RecordOperator(info, nextId');
      ExtendsConsistent(old(Abstract()), Abstract(), info.operator.id);
    }

    method RecordOperator(info: OperatorInfo, nextId': Uuid)
      requires ListsAgree() && Registered(operatorInfosById[nextId := info], operatorIds + [nextId], nextId')
      requires Traceable(operatorInfosById[nextId := info], ins, contentInputs)
      modifies this`operatorInfosById, this`operatorIds, this`nextId
      ensures Recorded() && nextId == nextId' && operatorInfosById == old(operatorInfosById)[old(nextId) := info]
      ensures (old(InputsAgree()) ==> InputsAgree()) && (old(OutputsAgree()) ==> OutputsAgree()) && (old(Untouched()) ==> Untouched())
    {
      hide ListsAgree, Registered, Traceable, InputsAgree, OutputsAgree, InPlace;
      operatorInfosById := operatorInfosById[nextId := info];
      operatorIds := operatorIds + [nextId];
      nextId := nextId';
    }

    lemma JoinedIns(ins0: map<Uuid, OperatorInputInfo>, inSet0: set<OperatorInputInfo>, shown0: set<OperatorInput>, owners0: set<Operator>, outs0: map<Uuid, OperatorOutputInfo>, outSet0: set<OperatorOutputInfo>, newIns: map<Uuid, OperatorInputInfo>, newOuts: map<Uuid, OperatorOutputInfo>)
      requires Joined(ins0, inSet0, shown0, owners0, outs0, outSet0, newIns, newOuts)
      ensures ins == ins0 + newIns
    {
    }

    lemma JoinedInfos(info: OperatorInfo, ins0: map<Uuid, OperatorInputInfo>, inSet0: set<OperatorInputInfo>, shown0: set<OperatorInput>, owners0: set<Operator>, outs0: map<Uuid, OperatorOutputInfo>, outSet0: set<OperatorOutputInfo>, newIns: map<Uuid, OperatorInputInfo>, newOuts: map<Uuid, OperatorOutputInfo>)
      requires Joined(ins0, inSet0, shown0, owners0, outs0, outSet0, newIns, newOuts) && InfosIn(info, newIns, newOuts)
      ensures forall n :: n in info.inputInfos ==> HasIn(info.inputInfos[n]) && info.inputInfos[n].inp.name == Some(n) && info.inputInfos[n].operator == info.operator
      ensures forall n :: n in info.outputInfos ==> HasOut(info.outputInfos[n]) && info.outputInfos[n].outp.name == Some(n) && info.outputInfos[n].operator == info.operator
      ensures forall id :: id in ins0 ==> id in ins && ins[id] == ins0[id]
      ensures forall id :: id in outs0 ==> id in outs && outs[id] == outs0[id]
      ensures forall i :: i in inSet ==> i in inSet0 || i in InputInfos(newIns)
      ensures forall o :: o in outSet ==> o in outSet0 || o in OutputInfos(newOuts)
      ensures forall i :: i in shown ==> i in shown0 || i in InputObjects(newIns)
      ensures forall o :: o in owners ==> o in owners0 || o == info.operator
    {
    }

    lemma NewIdsAbove(info: OperatorInfo, nextId': Uuid, newIns: map<Uuid, OperatorInputInfo>, newOuts: map<Uuid, OperatorOutputInfo>)
      requires Created(info, nextId, nextId', newIns, newOuts) && forall id :: id in ins || id in outs ==> id < nextId
      ensures forall id :: id in newIns ==> id !in ins
      ensures forall id :: id in newOuts ==> id !in outs
    {
    }

    /** A new operator for a revision, with fresh ids and unconnected inputs and outputs. Its objects are
        new, and all infos handed out before stay known. */
    method Op(trafo: Trafo) returns (info: OperatorInfo)
      requires Valid()
      modifies this
      ensures Valid() && (old(Untouched()) ==> Untouched())
      ensures Extends(old(Abstract()), Abstract(), info.operator.id) && Instance(info.operator, trafo) && Named(info, trafo)
      ensures forall n :: n in info.inputInfos ==> HasIn(info.inputInfos[n]) && info.inputInfos[n].inp.name == Some(n) && info.inputInfos[n].operator == info.operator
      ensures forall n :: n in info.outputInfos ==> HasOut(info.outputInfos[n]) && info.outputInfos[n].outp.name == Some(n) && info.outputInfos[n].operator == info.operator
      ensures forall id :: id in old(ins) ==> id in ins && ins[id] == old(ins)[id]
      ensures forall id :: id in old(outs) ==> id in outs && outs[id] == old(outs)[id]
      ensures fresh(info.operator) && owners <= old(owners) + {info.operator}
      ensures fresh(inSet - old(inSet)) && fresh(outSet - old(outSet)) && fresh(shown - old(shown))
      ensures operatorInfosById == old(operatorInfosById)[info.operator.id := info] && contentOutputs == old(contentOutputs)
      ensures info.operator.position == if autoarrange then old(currentPosition) else ORIGIN
      ensures currentPosition == if autoarrange then Moved(old(currentPosition), 700.0, 300.0) else old(currentPosition)
    {
      hide Consistent, Recorded, InputsAgree, OutputsAgree, Extends, Instance, Named, Created, Joined, InfosIn, InPlace, InputObjects, InputOwners, InputInfos, OutputInfos;
      ghost var newIns, newOuts;
      var nextId';
      info, nextId', newIns, newOuts := CreateOperator(trafo, nextId);
      if autoarrange {
        info.operator.position := currentPosition;
        currentPosition := Moved(currentPosition, 700.0, 300.0);
      }
      CreatedInfos(info, nextId, nextId', newIns, newOuts);
      Register(info, nextId', newIns, newOuts);
      JoinedInfos(info, old(ins), old(inSet), old(shown), old(owners), old(outs), old(outSet), newIns, newOuts);
    }

    // ----- finalization -----

    ghost function Operators(): set<Operator>
      reads this`operatorInfosById
    {
      set id | id in operatorInfosById :: operatorInfosById[id].operator
    }

    ghost predicate Ordered(id: Uuid, before: seq<OperatorInput>)
      requires id in operatorInfosById
      reads this`operatorInfosById, operatorInfosById[id].operator`inputs
    {
      operatorInfosById[id].operator.inputs == Order(before, Kind)
    }

    method FixInputOrderings()
      requires Registered(operatorInfosById, operatorIds, nextId)
      modifies Operators()`inputs
      ensures forall id :: id in operatorInfosById ==> Ordered(id, old(operatorInfosById[id].operator.inputs))
    {
      for k := 0 to |operatorIds|
        invariant forall j :: 0 <= j < k ==> Ordered(operatorIds[j], old(operatorInfosById[operatorIds[j]].operator.inputs))
        invariant forall j :: k <= j < |operatorIds| ==> operatorInfosById[operatorIds[j]].operator.inputs == old(operatorInfosById[operatorIds[j]].operator.inputs)
      {
        var id := operatorIds[k];
        var operator := operatorInfosById[id].operator;
        operator.inputs := OrderOperatorInputs(operator.inputs, Kind);
      }
    }

    lemma StillInPlace(before: map<Uuid, seq<OperatorInput>>)
      requires Recorded() && before.Keys == operatorInfosById.Keys
      requires forall id :: id in before ==> Ordered(id, before[id])
      requires forall id :: id in ins ==> ins[id].inp in before[ins[id].operator.id]
      ensures forall id :: id in ins ==> ins[id].inp in ins[id].operator.inputs
    {
      forall id | id in ins ensures ins[id].inp in ins[id].operator.inputs {
        OrderElements<OperatorInput>(before[ins[id].operator.id], Kind);
      }
    }

    method OrderInputs()
      requires Recorded()
      modifies Operators()`inputs
      ensures forall id :: id in operatorInfosById ==> Ordered(id, old(operatorInfosById[id].operator.inputs))
      ensures old(Untouched()) ==> Untouched()
    {
      hide ListsAgree;
      ghost var before := map id | id in operatorInfosById :: operatorInfosById[id].operator.inputs;
      FixInputOrderings();
      if old(Untouched()) {
        StillInPlace(before);
      }
    }

    /** A workflow input is placed beside the operator input it feeds. */
    ghost predicate Placed(c: Content)
      requires Known(operatorInfosById, c.operatorId, c.connectorName)
      reads this`operatorInfosById, operatorInfosById[c.operatorId].operator, operatorInfosById[c.operatorId].operator.inputs
    {
      var operator := operatorInfosById[c.operatorId].operator;
      c.connectorName.Some? ==>
        exists index: nat :: FirstAt(Exposed(operator.inputs), c.connectorName, index) && c.position == PlaceOf(operator.position, index)
    }

    ghost predicate Hidden(c: Content)
      requires Known(operatorInfosById, c.operatorId, c.connectorName)
      reads this`operatorInfosById, operatorInfosById[c.operatorId].operator, operatorInfosById[c.operatorId].operator.inputs
    {
      c.connectorName.Some? && forall k: nat :: !FirstAt(Exposed(operatorInfosById[c.operatorId].operator.inputs), c.connectorName, k)
    }

    lemma ExposedFound(c: Content)
      requires Recorded() && c in contentInputs
      ensures Untouched() ==> !Hidden(c)
    {
      if Untouched() && c.connectorName.Some? {
        ExposedHas(ins[c.connectorId].operator.inputs, ins[c.connectorId].inp);
      }
    }

    lemma FedKnown(k: nat)
      requires Recorded() && k < |contentInputs|
      ensures Known(operatorInfosById, contentInputs[k].operatorId, contentInputs[k].connectorName)
    {
    }

    method SetPlace(k: nat, p: Position)
      requires Recorded() && k < |contentInputs|
      modifies this`contentInputs
      ensures Recorded() && (old(Untouched()) ==> Untouched())
      ensures contentInputs == old(contentInputs)[k := old(contentInputs)[k].(position := p)]
    {
      hide Known, Registered, EntryLink, Links, Inputs, Outputs, Constants, TrafoInputs, TrafoOutputs, Unplaced;
      UnplacedUpdate(contentInputs, k, p);
      contentInputs := contentInputs[k := contentInputs[k].(position := p)];
    }

    method PlaceInput(k: nat) returns (ok: bool)
      requires Recorded() && k < |contentInputs|
      modifies this`contentInputs
      ensures Recorded() && |contentInputs| == |old(contentInputs)|
      ensures forall j :: 0 <= j < |contentInputs| && j != k ==> contentInputs[j] == old(contentInputs[j])
      ensures Known(operatorInfosById, contentInputs[k].operatorId, contentInputs[k].connectorName)
      ensures if ok then Placed(contentInputs[k]) else Hidden(contentInputs[k])
      ensures old(Untouched()) ==> ok && Untouched()
    {
      hide ListsAgree, Registered, Traceable, InPlace, Known;
      FedKnown(k);
      var c := contentInputs[k];
      if c.connectorName.Some? {
        var operator := operatorInfosById[c.operatorId].operator;
        ExposedFound(c);
        var index := PositionIndex(operator.inputs, c.connectorName);
        if index.None? {
          return false;
        }
        SetPlace(k, PlaceOf(operator.position, index.value));
      }
      return true;
    }

    /** Fails if the operator input that a workflow input feeds was hidden again. */
    method PlaceInputs() returns (ok: bool)
      requires Recorded()
      modifies this`contentInputs
      ensures Recorded()
      ensures ok ==> forall k :: 0 <= k < |contentInputs| ==> Placed(contentInputs[k])
      ensures !ok ==> exists k :: 0 <= k < |contentInputs| && Hidden(contentInputs[k])
      ensures old(Untouched()) ==> ok && Untouched()
    {
      hide ListsAgree, Placed, Hidden, InPlace;
      for k := 0 to |contentInputs|
        invariant Recorded() && |contentInputs| == |old(contentInputs)| && (old(Untouched()) ==> Untouched())
        invariant forall j :: 0 <= j < k ==> Placed(contentInputs[j])
      {
        ok := PlaceInput(k);
        if !ok {
          return;
        }
      }
      return true;
    }

    /** Every operator gets its required inputs first, then every workflow input its place. Never fails
        if all inputs were left to the constructor. */
    method Finalize() returns (ok: bool)
      requires Valid()
      modifies this`contentInputs, Operators()`inputs
      ensures Valid() && Abstract() == old(Abstract())
      ensures forall id :: id in operatorInfosById ==> Ordered(id, old(operatorInfosById[id].operator.inputs))
      ensures forall k :: 0 <= k < |contentInputs| ==> Known(operatorInfosById, contentInputs[k].operatorId, contentInputs[k].connectorName)
      ensures ok ==> forall k :: 0 <= k < |contentInputs| ==> Placed(contentInputs[k])
      ensures !ok ==> exists k :: 0 <= k < |contentInputs| && Hidden(contentInputs[k])
      ensures old(Untouched()) ==> ok && Untouched()
    {
      hide Known, InPlace, Consistent, ListsAgree, Registered, Traceable, InputsAgree, OutputsAgree, Placed, Hidden, Ordered;
      OrderInputs();
      ok := PlaceInputs();
      forall k | 0 <= k < |contentInputs| ensures Known(operatorInfosById, contentInputs[k].operatorId, contentInputs[k].connectorName) {
        FedKnown(k);
      }
    }
  }
}
